/** Cards of a kanban board: listing a column, appending to it and renumbering it. */
module ProjectBoard {
  import opened Seqs
  import opened StableSort

  type CardId = nat

  datatype Card = Card(board: nat, column: nat, sortOrder: int, createdAt: int, deleted: bool)

  type Cards = map<CardId, Card>

  predicate InColumn(c: Card, board: nat, column: nat) {
    c.board == board && c.column == column && !c.deleted
  }

  // --- Listing ---------------------------------------------------------------------

  predicate NotAfter(a: Card, b: Card) {
    a.sortOrder < b.sortOrder || (a.sortOrder == b.sortOrder && a.createdAt <= b.createdAt)
  }

  /** An answer the database may give to the column query; rows that tie on both
      columns may come in any order. */
  ghost predicate IsListing(cards: Cards, board: nat, column: nat, ids: seq<CardId>) {
    && NoDup(ids)
    && (forall id :: id in ids <==> id in cards && InColumn(cards[id], board, column))
    && (forall i, j :: 0 <= i < j < |ids| ==> NotAfter(cards[ids[i]], cards[ids[j]]))
  }

  // --- The new order ------------------------------------------------------------------

  type Positions = map<CardId, int>

  function Leftovers(ids: seq<CardId>, pos: Positions): seq<CardId> {
    if ids == [] then []
    else Leftovers(ids[..|ids| - 1], pos) + if ids[|ids| - 1] in pos then [] else [ids[|ids| - 1]]
  }

  function NewOrder(ids: seq<CardId>, pos: Positions): seq<CardId> {
    SortBy(ids, pos) + Leftovers(ids, pos)
  }

  // --- What the new order is -----------------------------------------------------------

  lemma {:induction false} LeftoversIs(ids: seq<CardId>, pos: Positions, a: CardId, b: CardId)
    requires NoDup(ids) && a != b
    ensures NoDup(Leftovers(ids, pos)) && forall x :: x in Leftovers(ids, pos) <==> x in ids && x !in pos
    ensures a !in pos && b !in pos ==> (Before(Leftovers(ids, pos), a, b) <==> Before(ids, a, b))
  {
    if ids != [] {
      var front, id := ids[..|ids| - 1], ids[|ids| - 1];
      assert ids == front + [id];
      LeftoversIs(front, pos, a, b);
      BeforeAppend(front, id, a, b);
      if id !in pos {
        BeforeAppend(Leftovers(front, pos), id, a, b);
        AppendNoDup(Leftovers(front, pos), id);
      }
    }
  }

  // The order the caller asked for.
  ghost predicate Precedes(ids: seq<CardId>, pos: Positions, a: CardId, b: CardId) {
    if a in pos && b in pos then pos[a] < pos[b] || (pos[a] == pos[b] && Before(ids, a, b))
    else if a !in pos && b !in pos then Before(ids, a, b)
    else a in pos
  }

  /** The new order holds the same cards once each: mapped ones by position, ties in
      their old order, then the unmapped ones in their old order. */
  lemma NewOrderIs(ids: seq<CardId>, pos: Positions)
    requires NoDup(ids)
    ensures NoDup(NewOrder(ids, pos)) && forall x :: x in NewOrder(ids, pos) <==> x in ids
    ensures forall a, b :: a in ids && b in ids && a != b ==> (Before(NewOrder(ids, pos), a, b) <==> Precedes(ids, pos, a, b))
  {
    var p, l := SortBy(ids, pos), Leftovers(ids, pos);
    SortByNoDup(ids, pos);
    SortByIs(ids, pos, 0, 1);
    LeftoversIs(ids, pos, 0, 1);
    JoinNoDup(p, l);
    forall a, b | a in ids && b in ids && a != b
      ensures Before(NewOrder(ids, pos), a, b) <==> Precedes(ids, pos, a, b)
    {
      SortByIs(ids, pos, a, b);
      LeftoversIs(ids, pos, a, b);
      BeforeJoin(p, l, a, b);
    }
  }

  // The same along the new order: earlier means a smaller position, then the old order.
  lemma OrderAsked(ids: seq<CardId>, pos: Positions)
    requires NoDup(ids)
    ensures var order := NewOrder(ids, pos);
            && NoDup(order) && (forall x :: x in order <==> x in ids)
            && (forall i, j :: 0 <= i < j < |order| && order[j] in pos ==> order[i] in pos && pos[order[i]] <= pos[order[j]])
            && (forall i, j :: 0 <= i < j < |order| && (order[i] in pos ==> order[j] in pos && pos[order[i]] == pos[order[j]]) ==>
                  Before(ids, order[i], order[j]))
  {
    var order := NewOrder(ids, pos);
    NewOrderIs(ids, pos);
    forall i, j | 0 <= i < j < |order|
      ensures Precedes(ids, pos, order[i], order[j])
    {
      assert order[i] in order && order[j] in order;
      assert Before(order, order[i], order[j]);
    }
  }

  /** Asking for the same order again changes nothing. */
  lemma NewOrderIsStable(ids: seq<CardId>, pos: Positions)
    requires NoDup(ids)
    ensures NewOrder(NewOrder(ids, pos), pos) == NewOrder(ids, pos)
  {
    var once := NewOrder(ids, pos);
    NewOrderIs(ids, pos);
    NewOrderIs(once, pos);
    forall a, b | a in once && b in once && a != b
      ensures Before(NewOrder(once, pos), a, b) <==> Before(once, a, b)
    {
      BeforeTotal(ids, a, b);
    }
    OrderDetermines(NewOrder(once, pos), once);
  }

  ghost function Mapped(ids: seq<CardId>, pos: Positions): set<CardId> {
    set x | x in ids && x in pos
  }

  /** The positions of the mapped cards are different slots at the top of the column. */
  ghost predicate AreTopSlots(ids: seq<CardId>, pos: Positions) {
    && (forall a, b :: a in Mapped(ids, pos) && b in Mapped(ids, pos) && pos[a] == pos[b] ==> a == b)
    && (forall a :: a in Mapped(ids, pos) ==> 0 <= pos[a] < |Mapped(ids, pos)|)
  }

  lemma SortedPartIs(ids: seq<CardId>, pos: Positions)
    requires NoDup(ids)
    ensures |SortBy(ids, pos)| == |Mapped(ids, pos)| && forall x :: x in SortBy(ids, pos) <==> x in Mapped(ids, pos)
  {
    SortByNoDup(ids, pos);
    SortByIs(ids, pos, 0, 1);
    NoDupSize(SortBy(ids, pos), Mapped(ids, pos));
  }

  lemma SlotOf(ids: seq<CardId>, pos: Positions, a: CardId) returns (i: nat)
    requires NoDup(ids) && a in Mapped(ids, pos)
    ensures i < |Mapped(ids, pos)| == |SortBy(ids, pos)| && SortBy(ids, pos)[i] == a
    ensures |Mapped(ids, pos)| <= |NewOrder(ids, pos)| && NewOrder(ids, pos)[i] == a
  {
    SortedPartIs(ids, pos);
    assert a in SortBy(ids, pos);
    i :| 0 <= i < |SortBy(ids, pos)| && SortBy(ids, pos)[i] == a;
  }

  // The sorted part rises by position.
  lemma SortedStrictly(ids: seq<CardId>, pos: Positions)
    requires NoDup(ids) && AreTopSlots(ids, pos)
    ensures var p := SortBy(ids, pos); forall i, j :: 0 <= i < j < |p| ==> pos[p[i]] < pos[p[j]]
  {
    var p := SortBy(ids, pos);
    SortByNoDup(ids, pos);
    forall i, j | 0 <= i < j < |p|
      ensures pos[p[i]] < pos[p[j]]
    {
      assert p[i] in p && p[j] in p;
      SortByIs(ids, pos, p[i], p[j]);
      assert Before(p, p[i], p[j]);
    }
  }

  lemma {:induction false} AtLeastIndex(p: seq<CardId>, pos: Positions, i: nat)
    requires i < |p| && (forall x :: x in p ==> x in pos && 0 <= pos[x])
    requires forall i, j :: 0 <= i < j < |p| ==> pos[p[i]] < pos[p[j]]
    ensures i <= pos[p[i]]
  {
    if i > 0 {
      AtLeastIndex(p, pos, i - 1);
    }
  }

  lemma {:induction false} AtMostIndex(p: seq<CardId>, pos: Positions, i: nat)
    requires i < |p| && (forall x :: x in p ==> x in pos && pos[x] < |p|)
    requires forall i, j :: 0 <= i < j < |p| ==> pos[p[i]] < pos[p[j]]
    ensures pos[p[i]] <= i
    decreases |p| - i
  {
    if i < |p| - 1 {
      AtMostIndex(p, pos, i + 1);
    }
  }

  // n rising numbers below n are 0, 1, 2, ...
  lemma StrictIsIdentity(p: seq<CardId>, pos: Positions, i: nat)
    requires i < |p| && (forall x :: x in p ==> x in pos && 0 <= pos[x] < |p|)
    requires forall i, j :: 0 <= i < j < |p| ==> pos[p[i]] < pos[p[j]]
    ensures pos[p[i]] == i
  {
    AtLeastIndex(p, pos, i);
    AtMostIndex(p, pos, i);
  }

  ghost predicate InOwnSlots(order: seq<CardId>, cards: set<CardId>, pos: Positions)
    requires cards <= pos.Keys
  {
    forall a :: a in cards ==> 0 <= pos[a] < |order| && order[pos[a]] == a
  }

  /** Every mapped card lands in the slot asked for exactly when the positions are a
      numbering of the mapped cards from 0; otherwise only their order counts. */
  lemma SlotsHonouredIff(ids: seq<CardId>, pos: Positions)
    requires NoDup(ids)
    ensures InOwnSlots(NewOrder(ids, pos), Mapped(ids, pos), pos) <==> AreTopSlots(ids, pos)
  {
    if AreTopSlots(ids, pos) {
      SortedPartIs(ids, pos);
      SortedStrictly(ids, pos);
      forall a | a in Mapped(ids, pos)
        ensures 0 <= pos[a] < |NewOrder(ids, pos)| && NewOrder(ids, pos)[pos[a]] == a
      {
        var i := SlotOf(ids, pos, a);
        StrictIsIdentity(SortBy(ids, pos), pos, i);
      }
    }
    if InOwnSlots(NewOrder(ids, pos), Mapped(ids, pos), pos) {
      SortedPartIs(ids, pos);
      NewOrderIs(ids, pos);
      forall a | a in Mapped(ids, pos)
        ensures 0 <= pos[a] < |Mapped(ids, pos)|
      {
        var i := SlotOf(ids, pos, a);
      }
    }
  }

  // --- Renumbering ---------------------------------------------------------------------

  function IndexOf(s: seq<CardId>, id: CardId): (i: nat)
    requires id in s
    ensures i < |s| && s[i] == id
  {
    if s[0] == id then 0 else 1 + IndexOf(s[1..], id)
  }

  function Renumber(cards: Cards, order: seq<CardId>): Cards {
    map id | id in cards :: if id in order then cards[id].(sortOrder := IndexOf(order, id)) else cards[id]
  }

  lemma IndexIs(s: seq<CardId>, i: nat)
    requires NoDup(s) && i < |s|
    ensures IndexOf(s, s[i]) == i
  {
  }

  lemma ListingFollowsNumbers(cards: Cards, board: nat, column: nat, ids: seq<CardId>, a: CardId, b: CardId)
    requires IsListing(cards, board, column, ids) && a in ids && b in ids && a != b
    requires cards[a].sortOrder != cards[b].sortOrder
    ensures Before(ids, a, b) <==> cards[a].sortOrder < cards[b].sortOrder
  {
    BeforeTotal(ids, a, b);
  }

  /** After renumbering, the column lists in exactly the new order, whatever the
      database does with ties. */
  lemma RelistingIsTheOrder(cards: Cards, board: nat, column: nat, order: seq<CardId>, ids: seq<CardId>)
    requires NoDup(order) && forall id :: id in order <==> id in cards && InColumn(cards[id], board, column)
    ensures IsListing(Renumber(cards, order), board, column, ids) <==> ids == order
    ensures forall i :: 0 <= i < |order| ==> Renumber(cards, order)[order[i]].sortOrder == i
  {
    var after := Renumber(cards, order);
    forall i | 0 <= i < |order|
      ensures order[i] in after && after[order[i]].sortOrder == i
    {
      IndexIs(order, i);
      assert order[i] in order;
    }
    assert forall id :: id in after && InColumn(after[id], board, column) <==> id in order;
    assert IsListing(after, board, column, order);
    if IsListing(after, board, column, ids) {
      forall a, b | a in ids && b in ids && a != b
        ensures Before(ids, a, b) <==> Before(order, a, b)
      {
        ListingFollowsNumbers(after, board, column, ids, a, b);
        ListingFollowsNumbers(after, board, column, order, a, b);
        assert after[a].sortOrder == IndexOf(order, a) && after[b].sortOrder == IndexOf(order, b);
      }
      OrderDetermines(ids, order);
    }
  }

  /** Cards outside the column keep everything, so every other listing is unchanged. */
  lemma OtherColumnsUntouched(cards: Cards, board: nat, column: nat, order: seq<CardId>, board': nat, column': nat, ids: seq<CardId>)
    requires forall id :: id in order <==> id in cards && InColumn(cards[id], board, column)
    requires board != board' || column != column'
    ensures IsListing(Renumber(cards, order), board', column', ids) <==> IsListing(cards, board', column', ids)
    ensures forall id :: id in cards && id !in order ==> Renumber(cards, order)[id] == cards[id]
  {
    var after := Renumber(cards, order);
    assert forall id :: id in cards && InColumn(cards[id], board', column') ==> after[id] == cards[id];
    assert forall id :: id in after && InColumn(after[id], board', column') <==> id in cards && InColumn(cards[id], board', column');
  }

  /** Reordering twice with the same map is reordering once. */
  lemma ReorderIsIdempotent(cards: Cards, board: nat, column: nat, ids: seq<CardId>, pos: Positions, again: seq<CardId>)
    requires IsListing(cards, board, column, ids)
    requires IsListing(Renumber(cards, NewOrder(ids, pos)), board, column, again)
    ensures Renumber(Renumber(cards, NewOrder(ids, pos)), NewOrder(again, pos)) == Renumber(cards, NewOrder(ids, pos))
  {
    var order := NewOrder(ids, pos);
    NewOrderIs(ids, pos);
    RelistingIsTheOrder(cards, board, column, order, again);
    NewOrderIsStable(ids, pos);
  }

  // The cards after the first `k` of the new order have been numbered.
  ghost function RenumberFirst(cards: Cards, order: seq<CardId>, k: nat): Cards {
    map id | id in cards :: if id in order && IndexOf(order, id) < k then cards[id].(sortOrder := IndexOf(order, id)) else cards[id]
  }

  lemma RenumberNext(cards: Cards, order: seq<CardId>, k: nat)
    requires NoDup(order) && k < |order| && order[k] in cards
    ensures RenumberFirst(cards, order, k + 1) == RenumberFirst(cards, order, k)[order[k] := cards[order[k]].(sortOrder := k)]
    ensures RenumberFirst(cards, order, k)[order[k]] == cards[order[k]]
  {
    IndexIs(order, k);
  }

  class BoardCardRepository {
    var cards: Cards

    constructor (cards: Cards)
      ensures this.cards == cards
    {
      this.cards := cards;
    }

    /** One past the highest live sort order; `rows` is the column's listing. */
    method NextSortOrder(board: nat, column: nat, rows: seq<CardId>) returns (next: int)
      requires IsListing(cards, board, column, rows)
      ensures rows == [] ==> next == 0
      ensures forall id :: id in cards && InColumn(cards[id], board, column) ==> cards[id].sortOrder < next
      ensures rows != [] ==> exists id :: id in cards && InColumn(cards[id], board, column) && cards[id].sortOrder + 1 == next
    {
      if rows == [] {
        return 0;
      }
      var last := rows[|rows| - 1];
      assert last in rows;
      next := cards[last].sortOrder + 1;
    }

    // Cards already numbered right are left alone.
    method AssignOrders(ordered: seq<CardId>)
      requires NoDup(ordered) && forall id :: id in ordered ==> id in cards
      modifies this
      ensures cards == Renumber(old(cards), ordered)
    {
      assert cards == RenumberFirst(cards, ordered, 0);
      for k := 0 to |ordered|
        invariant cards == RenumberFirst(old(cards), ordered, k)
      {
        var id := ordered[k];
        assert id in ordered;
        RenumberNext(old(cards), ordered, k);
        if cards[id].sortOrder != k {
          cards := cards[id := cards[id].(sortOrder := k)];
        }
      }
      assert RenumberFirst(old(cards), ordered, |ordered|) == Renumber(old(cards), ordered);
    }

    /** `existing` is the column's listing before, any listing after is the new order. */
    method ReorderInColumn(board: nat, column: nat, pos: Positions, existing: seq<CardId>) returns (ordered: seq<CardId>)
      requires IsListing(cards, board, column, existing)
      modifies this
      ensures ordered == NewOrder(existing, pos)
      ensures cards == Renumber(old(cards), ordered)
      ensures forall ids :: IsListing(cards, board, column, ids) <==> ids == ordered
      ensures NoDup(ordered) && forall id :: id in ordered <==> id in existing
      ensures forall i, j :: 0 <= i < j < |ordered| && ordered[j] in pos ==> ordered[i] in pos && pos[ordered[i]] <= pos[ordered[j]]
      ensures forall i, j :: 0 <= i < j < |ordered| && (ordered[i] in pos ==> ordered[j] in pos && pos[ordered[i]] == pos[ordered[j]]) ==>
                Before(existing, ordered[i], ordered[j])
      ensures cards.Keys == old(cards).Keys && forall id :: id in cards && id !in existing ==> cards[id] == old(cards)[id]
      ensures forall k :: 0 <= k < |ordered| ==>
                && ordered[k] in old(cards) && cards[ordered[k]].sortOrder == k
                && cards[ordered[k]] == old(cards)[ordered[k]].(sortOrder := cards[ordered[k]].sortOrder)
    {
      OrderAsked(existing, pos);
      RelistingIsTheOrder(cards, board, column, NewOrder(existing, pos), NewOrder(existing, pos));
      ordered := NewOrder(existing, pos);
      NewOrderIs(existing, pos);
      ghost var before := cards;
      AssignOrders(ordered);
      forall ids
        ensures IsListing(cards, board, column, ids) <==> ids == ordered
      {
        RelistingIsTheOrder(before, board, column, ordered, ids);
      }
    }
  }

  /** After a reorder the next card goes to slot n, the number of cards. */
  lemma NextAfterReorder(cards: Cards, board: nat, column: nat, order: seq<CardId>, next: int)
    requires NoDup(order) && order != [] && forall id :: id in order <==> id in cards && InColumn(cards[id], board, column)
    requires var after := Renumber(cards, order);
             && (forall id :: id in after && InColumn(after[id], board, column) ==> after[id].sortOrder < next)
             && (exists id :: id in after && InColumn(after[id], board, column) && after[id].sortOrder + 1 == next)
    ensures next == |order|
  {
    RelistingIsTheOrder(cards, board, column, order, order);
    var after := Renumber(cards, order);
    var n := |order| - 1;
    assert order[n] in order && InColumn(after[order[n]], board, column);
    var id :| id in after && InColumn(after[id], board, column) && after[id].sortOrder + 1 == next;
    assert id in order && after[id].sortOrder == IndexOf(order, id);
  }
}
