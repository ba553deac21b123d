/** Heuristic clustering of run artifacts into at most seven insight items. */
module Insights {
  import opened Seqs
  import opened StableSort

  type Label = string
  type Session = nat

  // An empty error kind counts as none.
  datatype Artifact = Artifact(session: Session, errorKind: string, tools: seq<Label>, packs: seq<Label>)

  datatype Category = FrequentFailure | ToolOveruse | SkillDrift | General

  datatype Item = Item(category: Category, about: Label, sessions: seq<Session>, runCount: int)

  // One occurrence of a label in an artifact.
  datatype Event = Event(name: Label, session: Session)

  // --- Which labels occur -----------------------------------------------------------

  function LabelEvents(labels: seq<Label>, session: Session): seq<Event> {
    if labels == [] then [] else LabelEvents(labels[..|labels| - 1], session) + [Event(labels[|labels| - 1], session)]
  }

  function EventsOf(a: Artifact, c: Category): seq<Event> {
    match c
    case FrequentFailure => if a.errorKind == "" then [] else [Event(a.errorKind, a.session)]
    case ToolOveruse => LabelEvents(a.tools, a.session)
    case SkillDrift => LabelEvents(a.packs, a.session)
    case General => []
  }

  // All occurrences of one family, in the order of the artifacts.
  function Events(arts: seq<Artifact>, c: Category): seq<Event> {
    if arts == [] then [] else Events(arts[..|arts| - 1], c) + EventsOf(arts[|arts| - 1], c)
  }

  function Occurrences(events: seq<Event>, name: Label): nat {
    if events == [] then 0
    else Occurrences(events[..|events| - 1], name) + if events[|events| - 1].name == name then 1 else 0
  }

  function SessionsWith(events: seq<Event>, name: Label): seq<Session> {
    if events == [] then []
    else SessionsWith(events[..|events| - 1], name) + if events[|events| - 1].name == name then [events[|events| - 1].session] else []
  }

  // --- Counter and buckets -------------------------------------------------------------

  /** A counter with its keys in first-seen order, and the bucket of each key. */
  datatype Table = Table(order: seq<Label>, counts: map<Label, int>, buckets: map<Label, seq<Session>>)

  const EMPTY := Table([], map[], map[])

  function Add(t: Table, e: Event): Table {
    if e.name in t.counts && e.name in t.buckets
    then t.(counts := t.counts[e.name := t.counts[e.name] + 1], buckets := t.buckets[e.name := t.buckets[e.name] + [e.session]])
    else Table(t.order + [e.name], t.counts[e.name := 1], t.buckets[e.name := [e.session]])
  }

  function Build(events: seq<Event>): Table {
    if events == [] then EMPTY else Add(Build(events[..|events| - 1]), events[|events| - 1])
  }

  ghost predicate Describes(t: Table, events: seq<Event>) {
    && NoDup(t.order)
    && (forall l :: l in t.order <==> l in t.counts) && t.counts.Keys == t.buckets.Keys
    && (forall l :: l in t.counts ==> t.counts[l] == Occurrences(events, l) >= 1 && t.buckets[l] == SessionsWith(events, l))
    && (forall l :: l !in t.counts ==> Occurrences(events, l) == 0)
  }

  lemma OneMore(events: seq<Event>, e: Event, l: Label)
    ensures Occurrences(events + [e], l) == Occurrences(events, l) + if e.name == l then 1 else 0
    ensures SessionsWith(events + [e], l) == SessionsWith(events, l) + if e.name == l then [e.session] else []
  {
    assert (events + [e])[..|events|] == events;
  }

  lemma {:induction false} NothingWithout(events: seq<Event>, l: Label)
    requires Occurrences(events, l) == 0
    ensures SessionsWith(events, l) == []
  {
    if events != [] {
      NothingWithout(events[..|events| - 1], l);
    }
  }

  lemma AddDescribes(t: Table, events: seq<Event>, e: Event)
    requires Describes(t, events)
    ensures Describes(Add(t, e), events + [e])
  {
    if e.name !in t.counts {
      NothingWithout(events, e.name);
      AppendNoDup(t.order, e.name);
    }
    var u := Add(t, e);
    forall l
      ensures l in u.counts ==> u.counts[l] == Occurrences(events + [e], l) >= 1 && u.buckets[l] == SessionsWith(events + [e], l)
      ensures l !in u.counts ==> Occurrences(events + [e], l) == 0
    {
      OneMore(events, e, l);
    }
  }

  lemma {:induction false} BuildDescribes(events: seq<Event>)
    ensures Describes(Build(events), events)
  {
    if events != [] {
      BuildDescribes(events[..|events| - 1]);
      AddDescribes(Build(events[..|events| - 1]), events[..|events| - 1], events[|events| - 1]);
      assert events == events[..|events| - 1] + [events[|events| - 1]];
    }
  }

  lemma {:induction false} BuildJoin(a: seq<Event>, e: Event)
    ensures Build(a + [e]) == Add(Build(a), e)
  {
    assert (a + [e])[..|a|] == a;
  }

  // `a` occurs at `k`, and up to there `b` does not.
  ghost predicate FirstAt(events: seq<Event>, k: int, a: Label, b: Label) {
    0 <= k < |events| && events[k].name == a && forall m :: 0 <= m <= k ==> events[m].name != b
  }

  ghost predicate SeenFirst(events: seq<Event>, a: Label, b: Label) {
    exists k :: FirstAt(events, k, a, b)
  }

  lemma {:induction false} OccursAt(events: seq<Event>, l: Label)
    ensures Occurrences(events, l) >= 1 <==> exists k :: 0 <= k < |events| && events[k].name == l
  {
    if events != [] {
      OccursAt(events[..|events| - 1], l);
      assert forall k :: 0 <= k < |events| - 1 ==> events[..|events| - 1][k] == events[k];
    }
  }

  lemma SeenFirstGrows(events: seq<Event>, e: Event, a: Label, b: Label)
    requires SeenFirst(events, a, b)
    ensures SeenFirst(events + [e], a, b)
  {
    var k :| FirstAt(events, k, a, b);
    assert FirstAt(events + [e], k, a, b);
  }

  /** A counter keeps its keys in the order of their first occurrence. */
  lemma {:induction false} OrderIsFirstSeen(events: seq<Event>, a: Label, b: Label)
    requires Before(Build(events).order, a, b)
    ensures SeenFirst(events, a, b)
  {
    var front, e := events[..|events| - 1], events[|events| - 1];
    assert events == front + [e];
    var t := Build(front);
    BuildDescribes(front);
    BeforeAppend(t.order, e.name, a, b);
    if Before(t.order, a, b) {
      OrderIsFirstSeen(front, a, b);
      SeenFirstGrows(front, e, a, b);
    } else {
      OccursAt(front, a);
      OccursAt(front, b);
      var k :| 0 <= k < |front| && front[k].name == a;
      assert FirstAt(events, k, a, b);
    }
  }

  // --- Most common -------------------------------------------------------------------------

  function Negated(counts: map<Label, int>): map<Label, int> {
    map l | l in counts :: -counts[l]
  }

  /** The `k` most frequent labels, most frequent first, first-seen first among
      equals. */
  function MostCommon(t: Table, k: nat): seq<Label> {
    Take(k, SortBy(t.order, Negated(t.counts)))
  }

  lemma SortedOrder(t: Table, events: seq<Event>, a: Label, b: Label)
    requires Describes(t, events) && a in t.counts && b in t.counts && a != b
    ensures var all := SortBy(t.order, Negated(t.counts));
            NoDup(all) && a in all && b in all &&
            (Before(all, a, b) <==> t.counts[a] > t.counts[b] || (t.counts[a] == t.counts[b] && Before(t.order, a, b)))
  {
    var key := Negated(t.counts);
    SortByNoDup(t.order, key);
    SortByIs(t.order, key, a, b);
  }

  // `top` lists labels of the table, no repeats, counts never rising.
  ghost predicate Descending(top: seq<Label>, counts: map<Label, int>) {
    && NoDup(top)
    && (forall i :: 0 <= i < |top| ==> top[i] in counts)
    && (forall i, j :: 0 <= i < j < |top| ==> counts[top[i]] >= counts[top[j]])
  }

  lemma {:induction false} SortByElements(ids: seq<Label>, key: map<Label, int>)
    ensures forall x :: x in SortBy(ids, key) <==> x in ids && x in key
  {
    if ids != [] {
      SortByElements(ids[..|ids| - 1], key);
      assert ids == ids[..|ids| - 1] + [ids[|ids| - 1]];
    }
  }

  lemma MostCommonDescends(t: Table, events: seq<Event>, k: nat)
    requires Describes(t, events)
    ensures |MostCommon(t, k)| <= k && Descending(MostCommon(t, k), t.counts)
  {
    var all, top := SortBy(t.order, Negated(t.counts)), MostCommon(t, k);
    SortByElements(t.order, Negated(t.counts));
    SortByNoDup(t.order, Negated(t.counts));
    assert forall i :: 0 <= i < |top| ==> top[i] == all[i] && all[i] in all;
    forall i, j | 0 <= i < j < |top|
      ensures t.counts[top[i]] >= t.counts[top[j]]
    {
      SortedOrder(t, events, all[i], all[j]);
      assert Before(all, all[i], all[j]);
    }
  }

  /** A label left out of the top `k` is no more frequent than any label kept, and
      was seen later than those it ties with. */
  lemma TopBeatsRest(t: Table, events: seq<Event>, k: nat, m: Label, i: nat)
    requires Describes(t, events) && m in t.counts && m !in MostCommon(t, k)
    ensures |MostCommon(t, k)| == k
    ensures i < k ==>
              var l := MostCommon(t, k)[i];
              && Occurrences(events, m) <= Occurrences(events, l)
              && (Occurrences(events, m) == Occurrences(events, l) ==> Before(t.order, l, m))
  {
    var all, top := SortBy(t.order, Negated(t.counts)), MostCommon(t, k);
    SortByElements(t.order, Negated(t.counts));
    var j :| 0 <= j < |all| && all[j] == m;
    assert forall q :: 0 <= q < |top| ==> all[q] == top[q] && top[q] in top;
    if i < k {
      var l := top[i];
      assert all[i] == l && l in all;
      SortedOrder(t, events, l, m);
      assert Before(all, l, m);
    }
  }

  // --- Evidence ----------------------------------------------------------------------------

  // First occurrences only, in order.
  function Distinct(s: seq<Session>): seq<Session> {
    if s == [] then []
    else
      var front := Distinct(s[..|s| - 1]);
      if s[|s| - 1] in front then front else front + [s[|s| - 1]]
  }

  lemma {:induction false} DistinctIs(s: seq<Session>)
    ensures NoDup(Distinct(s)) && forall x :: x in Distinct(s) <==> x in s
    ensures |Distinct(s)| <= |s|
  {
    if s != [] {
      DistinctIs(s[..|s| - 1]);
      assert s == s[..|s| - 1] + [s[|s| - 1]];
    }
  }

  lemma {:induction false} DistinctGrows(s: seq<Session>, n: nat)
    requires n <= |s|
    ensures Distinct(s[..n]) <= Distinct(s)
  {
    if n < |s| {
      DistinctGrows(s[..|s| - 1], n);
      assert s[..|s| - 1][..n] == s[..n];
    } else {
      assert s[..n] == s;
    }
  }

  /** The first `limit` distinct sessions. */
  method UniqueSessions(sessions: seq<Session>, limit: nat) returns (out: seq<Session>)
    requires limit >= 1
    ensures out == Take(limit, Distinct(sessions))
  {
    var seen: set<Session> := {};
    out := [];
    for i := 0 to |sessions|
      invariant out == Distinct(sessions[..i]) && |out| < limit
      invariant forall x :: x in seen <==> x in out
    {
      assert sessions[..i + 1][..i] == sessions[..i];
      if sessions[i] !in seen {
        seen := seen + {sessions[i]};
        out := out + [sessions[i]];
        if |out| >= limit {
          DistinctGrows(sessions, i + 1);
          return;
        }
      }
    }
    assert sessions[..|sessions|] == sessions;
  }

  // --- Items ---------------------------------------------------------------------------------

  ghost predicate GoodItem(item: Item, arts: seq<Artifact>) {
    var events := Events(arts, item.category);
    && item.runCount == Occurrences(events, item.about) >= 2
    && item.sessions == Take(5, Distinct(SessionsWith(events, item.about)))
  }

  // More frequent, or as frequent and seen first.
  ghost predicate Outranks(events: seq<Event>, a: Label, b: Label) {
    && a != b && Occurrences(events, a) >= Occurrences(events, b)
    && (Occurrences(events, a) == Occurrences(events, b) ==> SeenFirst(events, a, b))
  }

  // The items one family contributes.
  ghost predicate FamilyItems(items: seq<Item>, arts: seq<Artifact>, c: Category, k: nat) {
    && |items| <= k
    && (forall i :: 0 <= i < |items| ==> items[i].category == c && GoodItem(items[i], arts))
    && (forall i, j :: 0 <= i < j < |items| ==>
          Outranks(Events(arts, c), items[i].about, items[j].about))
    // A frequent label is left out only when k others outrank it.
    && (forall l :: Occurrences(Events(arts, c), l) >= 2 && (forall i :: 0 <= i < |items| ==> items[i].about != l) ==>
          |items| == k && forall i :: 0 <= i < |items| ==> Outranks(Events(arts, c), items[i].about, l))
  }

  // One item per label of `top` that occurs at least twice.
  function ItemsOf(t: Table, c: Category, top: seq<Label>): seq<Item> {
    if top == [] then []
    else
      var before, l := ItemsOf(t, c, top[..|top| - 1]), top[|top| - 1];
      if l !in t.counts || l !in t.buckets || t.counts[l] < 2 then before
      else before + [Item(c, l, Take(5, Distinct(t.buckets[l])), t.counts[l])]
  }

  function FamilyOf(arts: seq<Artifact>, c: Category, k: nat): seq<Item> {
    var t := Build(Events(arts, c));
    ItemsOf(t, c, MostCommon(t, k))
  }

  // As counts never rise along `top`, the labels kept are its first ones.
  lemma {:induction false} ItemsOfIs(t: Table, c: Category, top: seq<Label>)
    requires Descending(top, t.counts) && t.counts.Keys == t.buckets.Keys
    ensures var items := ItemsOf(t, c, top);
            && |items| <= |top|
            && (forall i :: 0 <= i < |items| ==> items[i] == Item(c, top[i], Take(5, Distinct(t.buckets[top[i]])), t.counts[top[i]])
                                                 && t.counts[top[i]] >= 2)
            && (forall i :: |items| <= i < |top| ==> t.counts[top[i]] < 2)
  {
    if top != [] {
      var front := top[..|top| - 1];
      ItemsOfIs(t, c, front);
      var before := ItemsOf(t, c, front);
      assert |before| < |front| ==> t.counts[front[|before|]] < 2 && t.counts[top[|top| - 1]] <= t.counts[top[|before|]];
    }
  }

  lemma NotKept(t: Table, events: seq<Event>, k: nat, items: seq<Item>, l: Label)
    requires t == Build(events) && Describes(t, events) && |items| <= |MostCommon(t, k)|
    requires forall i :: 0 <= i < |items| ==> items[i].about == MostCommon(t, k)[i] && items[i].runCount == Occurrences(events, items[i].about)
    requires forall i :: |items| <= i < |MostCommon(t, k)| ==> Occurrences(events, MostCommon(t, k)[i]) < 2
    requires Occurrences(events, l) >= 2 && forall i :: 0 <= i < |items| ==> items[i].about != l
    ensures |items| == k && forall i :: 0 <= i < |items| ==> Outranks(events, items[i].about, l)
  {
    var top := MostCommon(t, k);
    assert l in t.counts;
    forall i | 0 <= i < |top|
      ensures top[i] != l
    {
      assert i < |items| ==> items[i].about == top[i];
    }
    TopBeatsRest(t, events, k, l, |items|);
    forall i | 0 <= i < |items|
      ensures Outranks(events, items[i].about, l)
    {
      TopBeatsRest(t, events, k, l, i);
      if Occurrences(events, l) == Occurrences(events, top[i]) {
        OrderIsFirstSeen(events, top[i], l);
      }
    }
  }

  lemma TopOutranks(t: Table, events: seq<Event>, k: nat, i: nat, j: nat)
    requires t == Build(events) && Describes(t, events) && i < j < |MostCommon(t, k)|
    ensures Outranks(events, MostCommon(t, k)[i], MostCommon(t, k)[j])
  {
    var all, top := SortBy(t.order, Negated(t.counts)), MostCommon(t, k);
    SortByElements(t.order, Negated(t.counts));
    SortByNoDup(t.order, Negated(t.counts));
    assert top[i] == all[i] && top[j] == all[j] && all[i] in all && all[j] in all;
    SortedOrder(t, events, all[i], all[j]);
    assert Before(all, all[i], all[j]);
    if t.counts[all[i]] == t.counts[all[j]] {
      OrderIsFirstSeen(events, all[i], all[j]);
    }
  }

  /** What one family contributes. */
  lemma FamilyIs(arts: seq<Artifact>, c: Category, k: nat)
    ensures FamilyItems(FamilyOf(arts, c, k), arts, c, k)
  {
    var events := Events(arts, c);
    var t := Build(events);
    var top := MostCommon(t, k);
    var items := FamilyOf(arts, c, k);
    BuildDescribes(events);
    MostCommonDescends(t, events, k);
    ItemsOfIs(t, c, top);
    forall l | Occurrences(events, l) >= 2 && (forall i :: 0 <= i < |items| ==> items[i].about != l)
      ensures |items| == k && forall i :: 0 <= i < |items| ==> Outranks(events, items[i].about, l)
    {
      NotKept(t, events, k, items, l);
    }
    forall i, j | 0 <= i < j < |items|
      ensures Outranks(events, items[i].about, items[j].about)
    {
      TopOutranks(t, events, k, i, j);
    }
  }

  method ItemsFor(t: Table, k: nat, c: Category) returns (items: seq<Item>)
    requires t.counts.Keys == t.buckets.Keys && Descending(MostCommon(t, k), t.counts)
    ensures items == ItemsOf(t, c, MostCommon(t, k))
  {
    items := [];
    var top := MostCommon(t, k);
    for i := 0 to |top|
      invariant items == ItemsOf(t, c, top[..i])
    {
      var l := top[i];
      assert top[..i + 1][..i] == top[..i];
      if t.counts[l] >= 2 {
        var sessions := UniqueSessions(t.buckets[l], 5);
        items := items + [Item(c, l, sessions, t.counts[l])];
      }
    }
    assert top[..|top|] == top;
  }

  function AllSessions(arts: seq<Artifact>): seq<Session> {
    if arts == [] then [] else AllSessions(arts[..|arts| - 1]) + [arts[|arts| - 1].session]
  }

  function QuietItem(arts: seq<Artifact>): Item {
    Item(General, "", Take(5, Distinct(AllSessions(arts))), |arts|)
  }

  // The three families in order, or one neutral item; never more than seven.
  function Items(arts: seq<Artifact>): seq<Item> {
    var all := FamilyOf(arts, FrequentFailure, 3) + FamilyOf(arts, ToolOveruse, 3) + FamilyOf(arts, SkillDrift, 2);
    if all == [] then [QuietItem(arts)] else Take(7, all)
  }

  // --- The report, counted out over the artifacts -----------------------------------------------

  // How often a label is listed, an artifact's repeats included.
  ghost function Uses(lists: seq<seq<Label>>, l: Label): int {
    Sum(seq(|lists|, i requires 0 <= i < |lists| => |set j | 0 <= j < |lists[i]| && lists[i][j] == l|))
  }

  ghost predicate HasFirst(labels: seq<Label>, a: Label, b: Label) {
    exists j :: 0 <= j < |labels| && labels[j] == a && b !in labels[..j + 1]
  }

  // A list has `a` at a place up to which neither it nor an earlier list has `b`.
  ghost predicate ListedFirst(lists: seq<seq<Label>>, a: Label, b: Label) {
    exists i :: 0 <= i < |lists| && (forall p :: 0 <= p < i ==> b !in lists[p]) && HasFirst(lists[i], a, b)
  }

  // The `a`th artifact is chosen and has the session `out[i]`; those chosen before it are listed before.
  ghost predicate Brings(a: int, out: seq<Session>, i: int, arts: seq<Artifact>, chosen: seq<bool>)
    requires 0 <= i < |out| && |chosen| == |arts| && 0 <= a < |arts|
  {
    chosen[a] && arts[a].session == out[i] && forall b :: 0 <= b < a && chosen[b] ==> arts[b].session in out[..i]
  }

  ghost predicate Appears(out: seq<Session>, i: int, arts: seq<Artifact>, chosen: seq<bool>)
    requires 0 <= i < |out| && |chosen| == |arts|
  {
    exists a :: 0 <= a < |arts| && Brings(a, out, i, arts, chosen)
  }

  /** The first `n` different sessions of the chosen artifacts, in the order of the artifacts. */
  ghost predicate FirstSessions(out: seq<Session>, n: nat, arts: seq<Artifact>, chosen: seq<bool>)
    requires |chosen| == |arts|
  {
    && |out| <= n && NoDup(out)
    && (forall i :: 0 <= i < |out| ==> Appears(out, i, arts, chosen))
    && (|out| < n ==> forall a :: 0 <= a < |arts| && chosen[a] ==> arts[a].session in out)
  }

  // `a` is listed more often, or as often and first.
  ghost predicate Leads(lists: seq<seq<Label>>, a: Label, b: Label) {
    a != b && Uses(lists, a) >= Uses(lists, b) && (Uses(lists, a) == Uses(lists, b) ==> ListedFirst(lists, a, b))
  }

  ghost predicate TrueItem(item: Item, arts: seq<Artifact>, lists: seq<seq<Label>>)
    requires |lists| == |arts|
  {
    && item.runCount == Uses(lists, item.about) >= 2
    && FirstSessions(item.sessions, 5, arts, seq(|arts|, i requires 0 <= i < |arts| => item.about in lists[i]))
  }

  ghost predicate AllTrue(items: seq<Item>, c: Category, arts: seq<Artifact>, lists: seq<seq<Label>>)
    requires |lists| == |arts|
  {
    forall i :: 0 <= i < |items| && items[i].category == c ==> TrueItem(items[i], arts, lists)
  }

  ghost predicate Ranked(items: seq<Item>, c: Category, lists: seq<seq<Label>>) {
    forall i, j :: 0 <= i < j < |items| && items[i].category == c && items[j].category == c ==>
      Leads(lists, items[i].about, items[j].about)
  }

  ghost predicate Reported(items: seq<Item>, c: Category, l: Label) {
    exists i :: 0 <= i < |items| && items[i].category == c && items[i].about == l
  }

  ghost predicate AllLead(items: seq<Item>, c: Category, lists: seq<seq<Label>>, l: Label) {
    forall i :: 0 <= i < |items| && items[i].category == c ==> Leads(lists, items[i].about, l)
  }

  ghost function Number(items: seq<Item>, c: Category): int {
    |set i | 0 <= i < |items| && items[i].category == c|
  }

  /** What `items` says of one category, given the labels each artifact lists for it: at most
      `k` true items, each leading the next, and a label listed twice or more is left out only
      when exactly `k` are reported and each of them leads it. */
  ghost predicate Reports(items: seq<Item>, c: Category, arts: seq<Artifact>, lists: seq<seq<Label>>, k: int)
    requires |lists| == |arts|
  {
    && AllTrue(items, c, arts, lists) && Ranked(items, c, lists) && Number(items, c) <= k
    && forall l :: Uses(lists, l) >= 2 && !Reported(items, c, l) ==> Number(items, c) == k && AllLead(items, c, lists, l)
  }

  function LabelsOf(a: Artifact, c: Category): seq<Label> {
    match c
    case FrequentFailure => if a.errorKind == "" then [] else [a.errorKind]
    case ToolOveruse => a.tools
    case SkillDrift => a.packs
    case General => []
  }

  ghost function Lists(arts: seq<Artifact>, c: Category): seq<seq<Label>> {
    seq(|arts|, i requires 0 <= i < |arts| => LabelsOf(arts[i], c))
  }

  lemma ListsNext(front: seq<Artifact>, last: Artifact, c: Category)
    ensures Lists(front + [last], c) == Lists(front, c) + [LabelsOf(last, c)]
    ensures Events(front + [last], c) == Events(front, c) + LabelEvents(LabelsOf(last, c), last.session)
  {
    assert (front + [last])[..|front|] == front;
    if c.FrequentFailure? && last.errorKind != "" {
      assert LabelEvents([last.errorKind][..0], last.session) == [];
    }
  }

  lemma {:induction false} LabelEventsAt(labels: seq<Label>, session: Session)
    ensures |LabelEvents(labels, session)| == |labels|
    ensures forall k :: 0 <= k < |labels| ==> LabelEvents(labels, session)[k] == Event(labels[k], session)
  {
    if labels != [] {
      LabelEventsAt(labels[..|labels| - 1], session);
    }
  }

  lemma {:induction false} TimesListed(labels: seq<Label>, session: Session, l: Label)
    ensures Occurrences(LabelEvents(labels, session), l) == |set j | 0 <= j < |labels| && labels[j] == l|
  {
    if labels != [] {
      var n := |labels| - 1;
      var front := labels[..n];
      TimesListed(front, session, l);
      assert (set j | 0 <= j < |labels| && labels[j] == l)
          == (set j | 0 <= j < n && front[j] == l) + if labels[n] == l then {n} else {};
    }
  }

  lemma UsesNext(lists: seq<seq<Label>>, last: seq<Label>, l: Label)
    ensures Uses(lists + [last], l) == Uses(lists, l) + |set j | 0 <= j < |last| && last[j] == l|
  {
    var all, n := lists + [last], |lists|;
    var times := seq(n + 1, i requires 0 <= i < n + 1 => |set j | 0 <= j < |all[i]| && all[i][j] == l|);
    assert times[..n] == seq(n, i requires 0 <= i < n => |set j | 0 <= j < |lists[i]| && lists[i][j] == l|);
  }

  lemma {:induction false} OccurrencesJoin(a: seq<Event>, b: seq<Event>, l: Label)
    ensures Occurrences(a + b, l) == Occurrences(a, l) + Occurrences(b, l)
  {
    if b == [] {
      assert a + b == a;
    } else {
      OccurrencesJoin(a, b[..|b| - 1], l);
      assert (a + b)[..|a + b| - 1] == a + b[..|b| - 1];
    }
  }

  lemma {:induction false} UsesAre(arts: seq<Artifact>, c: Category, l: Label)
    ensures Occurrences(Events(arts, c), l) == Uses(Lists(arts, c), l)
  {
    if arts != [] {
      var front, last := arts[..|arts| - 1], arts[|arts| - 1];
      assert arts == front + [last];
      UsesAre(front, c, l);
      ListsNext(front, last, c);
      OccurrencesJoin(Events(front, c), LabelEvents(LabelsOf(last, c), last.session), l);
      TimesListed(LabelsOf(last, c), last.session, l);
      UsesNext(Lists(front, c), LabelsOf(last, c), l);
    }
  }

  lemma NotListed(labels: seq<Label>, session: Session, l: Label)
    ensures Occurrences(LabelEvents(labels, session), l) >= 1 <==> l in labels
  {
    OccursAt(LabelEvents(labels, session), l);
    LabelEventsAt(labels, session);
    if l in labels {
      var k :| 0 <= k < |labels| && labels[k] == l;
      assert LabelEvents(labels, session)[k].name == l;
    }
  }

  lemma UnlistedNext(front: seq<Artifact>, last: Artifact, c: Category, l: Label)
    requires Occurrences(Events(front + [last], c), l) == 0
    ensures Occurrences(Events(front, c), l) == 0 && l !in LabelsOf(last, c)
  {
    ListsNext(front, last, c);
    OccurrencesJoin(Events(front, c), LabelEvents(LabelsOf(last, c), last.session), l);
    NotListed(LabelsOf(last, c), last.session, l);
  }

  lemma {:induction false} Unlisted(arts: seq<Artifact>, c: Category, l: Label, p: nat)
    requires Occurrences(Events(arts, c), l) == 0 && p < |arts|
    ensures l !in LabelsOf(arts[p], c)
  {
    var front, last := arts[..|arts| - 1], arts[|arts| - 1];
    assert arts == front + [last];
    UnlistedNext(front, last, c, l);
    if p < |front| {
      Unlisted(front, c, l, p);
    }
  }

  lemma ListedFirstGrows(lists: seq<seq<Label>>, last: seq<Label>, a: Label, b: Label)
    requires ListedFirst(lists, a, b)
    ensures ListedFirst(lists + [last], a, b)
  {
    var i :| 0 <= i < |lists| && (forall p :: 0 <= p < i ==> b !in lists[p]) && HasFirst(lists[i], a, b);
    assert (lists + [last])[i] == lists[i];
  }

  // The first place lies in the last artifact.
  lemma FirstInLast(front: seq<Artifact>, last: Artifact, c: Category, a: Label, b: Label)
    requires Occurrences(Events(front, c), b) == 0
    requires SeenFirst(LabelEvents(LabelsOf(last, c), last.session), a, b)
    ensures ListedFirst(Lists(front, c) + [LabelsOf(last, c)], a, b)
  {
    forall p | 0 <= p < |front|
      ensures b !in LabelsOf(front[p], c)
    {
      Unlisted(front, c, b, p);
    }
    var lists, labels := Lists(front, c) + [LabelsOf(last, c)], LabelsOf(last, c);
    LabelEventsAt(labels, last.session);
    var k :| FirstAt(LabelEvents(labels, last.session), k, a, b);
    assert forall m :: 0 <= m <= k ==> labels[m] == LabelEvents(labels, last.session)[m].name;
    assert HasFirst(labels, a, b);
    assert lists[|front|] == labels && forall p :: 0 <= p < |front| ==> lists[p] == LabelsOf(front[p], c);
  }

  lemma FirstAtSplits(x: seq<Event>, y: seq<Event>, k: int, a: Label, b: Label)
    requires FirstAt(x + y, k, a, b)
    ensures if k < |x| then FirstAt(x, k, a, b) else FirstAt(y, k - |x|, a, b) && forall m :: 0 <= m < |x| ==> x[m].name != b
  {
    forall m | 0 <= m <= k
      ensures m < |x| ==> x[m].name != b
      ensures m >= |x| ==> y[m - |x|].name != b
    {
      assert (x + y)[m] == if m < |x| then x[m] else y[m - |x|];
    }
    if k >= |x| {
      forall m | 0 <= m <= k - |x|
        ensures y[m].name != b
      {
        assert (x + y)[|x| + m] == y[m];
      }
    }
  }

  lemma SeenFirstSplits(x: seq<Event>, y: seq<Event>, a: Label, b: Label)
    requires SeenFirst(x + y, a, b)
    ensures SeenFirst(x, a, b) || (Occurrences(x, b) == 0 && SeenFirst(y, a, b))
  {
    var k :| FirstAt(x + y, k, a, b);
    FirstAtSplits(x, y, k, a, b);
    if k >= |x| {
      OccursAt(x, b);
      assert FirstAt(y, k - |x|, a, b);
    } else {
      assert FirstAt(x, k, a, b);
    }
  }

  lemma {:induction false} SeenFirstIsListedFirst(arts: seq<Artifact>, c: Category, a: Label, b: Label)
    requires SeenFirst(Events(arts, c), a, b)
    ensures ListedFirst(Lists(arts, c), a, b)
  {
    var front, last := arts[..|arts| - 1], arts[|arts| - 1];
    assert arts == front + [last];
    ListsNext(front, last, c);
    var before, more := Events(front, c), LabelEvents(LabelsOf(last, c), last.session);
    SeenFirstSplits(before, more, a, b);
    if SeenFirst(before, a, b) {
      SeenFirstIsListedFirst(front, c, a, b);
      ListedFirstGrows(Lists(front, c), LabelsOf(last, c), a, b);
    } else {
      FirstInLast(front, last, c, a, b);
    }
  }

  // --- Sessions of the chosen artifacts ---

  lemma AppearsNext(out: seq<Session>, more: seq<Session>, i: int, arts: seq<Artifact>, chosen: seq<bool>)
    requires arts != [] && |chosen| == |arts| && out <= more
    requires 0 <= i < |out| && Appears(out, i, arts[..|arts| - 1], chosen[..|arts| - 1])
    ensures Appears(more, i, arts, chosen)
  {
    var n := |arts| - 1;
    var a :| 0 <= a < n && Brings(a, out, i, arts[..n], chosen[..n]);
    assert more[..i] == out[..i];
    assert forall b :: 0 <= b < n ==> arts[..n][b] == arts[b] && chosen[..n][b] == chosen[b];
    assert Brings(a, more, i, arts, chosen);
  }

  ghost predicate AllInOrder(out: seq<Session>, arts: seq<Artifact>, chosen: seq<bool>)
    requires |chosen| == |arts|
  {
    FirstSessions(out, |out| + 1, arts, chosen)
  }

  lemma InOrderNext(out: seq<Session>, arts: seq<Artifact>, chosen: seq<bool>)
    requires arts != [] && |chosen| == |arts| && AllInOrder(out, arts[..|arts| - 1], chosen[..|arts| - 1])
    ensures var n := |arts| - 1;
            AllInOrder(if chosen[n] && arts[n].session !in out then out + [arts[n].session] else out, arts, chosen)
  {
    var n := |arts| - 1;
    var more := if chosen[n] && arts[n].session !in out then out + [arts[n].session] else out;
    forall i | 0 <= i < |more|
      ensures Appears(more, i, arts, chosen)
    {
      if i < |out| {
        AppearsNext(out, more, i, arts, chosen);
      } else {
        assert more[..i] == out;
        assert forall b :: 0 <= b < n ==> arts[..n][b] == arts[b] && chosen[..n][b] == chosen[b];
        assert Brings(n, more, i, arts, chosen);
      }
    }
    assert forall b :: 0 <= b < n ==> arts[..n][b] == arts[b] && chosen[..n][b] == chosen[b];
  }

  // Repeating one session adds it once.
  lemma {:induction false} DistinctRepeat(s: seq<Session>, again: seq<Session>, x: Session)
    requires again != [] && forall i :: 0 <= i < |again| ==> again[i] == x
    ensures Distinct(s + again) == if x in Distinct(s) then Distinct(s) else Distinct(s) + [x]
  {
    var n := |again| - 1;
    var all := s + again;
    assert all[..|all| - 1] == s + again[..n] && all[|all| - 1] == x;
    if n == 0 {
      assert s + again[..n] == s;
    } else {
      assert forall i :: 0 <= i < n ==> again[..n][i] == again[i];
      DistinctRepeat(s, again[..n], x);
    }
  }

  lemma {:induction false} SessionsJoin(a: seq<Event>, b: seq<Event>, l: Label)
    ensures SessionsWith(a + b, l) == SessionsWith(a, l) + SessionsWith(b, l)
  {
    if b == [] {
      assert a + b == a;
    } else {
      SessionsJoin(a, b[..|b| - 1], l);
      assert (a + b)[..|a + b| - 1] == a + b[..|b| - 1];
    }
  }

  lemma {:induction false} SessionsOfList(labels: seq<Label>, session: Session, l: Label)
    ensures var s := SessionsWith(LabelEvents(labels, session), l);
            (s == [] <==> l !in labels) && forall i :: 0 <= i < |s| ==> s[i] == session
  {
    if labels != [] {
      var front, last := labels[..|labels| - 1], labels[|labels| - 1];
      assert labels == front + [last];
      SessionsOfList(front, session, l);
    }
  }

  ghost function Carrying(arts: seq<Artifact>, c: Category, l: Label): seq<bool> {
    seq(|arts|, i requires 0 <= i < |arts| => l in LabelsOf(arts[i], c))
  }

  lemma EvidenceNext(arts: seq<Artifact>, c: Category, l: Label)
    requires arts != []
    ensures var n := |arts| - 1; var before, s := Distinct(SessionsWith(Events(arts[..n], c), l)), arts[n].session;
            Distinct(SessionsWith(Events(arts, c), l)) ==
            if l in LabelsOf(arts[n], c) && s !in before then before + [s] else before
  {
    var front, last := arts[..|arts| - 1], arts[|arts| - 1];
    assert arts == front + [last];
    ListsNext(front, last, c);
    var labels, seen := LabelsOf(last, c), SessionsWith(Events(front, c), l);
    SessionsJoin(Events(front, c), LabelEvents(labels, last.session), l);
    SessionsOfList(labels, last.session, l);
    if l in labels {
      DistinctRepeat(seen, SessionsWith(LabelEvents(labels, last.session), l), last.session);
    } else {
      assert seen + [] == seen;
    }
  }

  lemma CarryingNext(arts: seq<Artifact>, c: Category, l: Label)
    requires arts != []
    ensures var n := |arts| - 1; Carrying(arts, c, l)[..n] == Carrying(arts[..n], c, l)
  {
  }

  lemma {:induction false} EvidenceIsFirst(arts: seq<Artifact>, c: Category, l: Label)
    ensures AllInOrder(Distinct(SessionsWith(Events(arts, c), l)), arts, Carrying(arts, c, l))
  {
    if arts != [] {
      var front := arts[..|arts| - 1];
      EvidenceIsFirst(front, c, l);
      EvidenceNext(arts, c, l);
      CarryingNext(arts, c, l);
      InOrderNext(Distinct(SessionsWith(Events(front, c), l)), arts, Carrying(arts, c, l));
    }
  }

  ghost function Everyone(arts: seq<Artifact>): seq<bool> {
    seq(|arts|, _ => true)
  }

  lemma {:induction false} AllSessionsFirst(arts: seq<Artifact>)
    ensures AllInOrder(Distinct(AllSessions(arts)), arts, Everyone(arts))
  {
    if arts != [] {
      var n := |arts| - 1;
      AllSessionsFirst(arts[..n]);
      DistinctRepeat(AllSessions(arts[..n]), [arts[n].session], arts[n].session);
      assert Everyone(arts)[..n] == Everyone(arts[..n]);
      InOrderNext(Distinct(AllSessions(arts[..n])), arts, Everyone(arts));
    }
  }

  lemma TakeFirst(out: seq<Session>, n: nat, arts: seq<Artifact>, chosen: seq<bool>)
    requires |chosen| == |arts| && FirstSessions(out, |out| + 1, arts, chosen)
    ensures FirstSessions(Take(n, out), n, arts, chosen)
  {
    var some := Take(n, out);
    forall i | 0 <= i < |some|
      ensures Appears(some, i, arts, chosen)
    {
      assert Appears(out, i, arts, chosen);
      var a :| 0 <= a < |arts| && Brings(a, out, i, arts, chosen);
      assert some[..i] == out[..i];
      assert Brings(a, some, i, arts, chosen);
    }
  }

  method AddAll(t: Table, labels: seq<Label>, session: Session, ghost before: seq<Event>) returns (r: Table)
    requires t == Build(before)
    ensures r == Build(before + LabelEvents(labels, session))
  {
    r := t;
    assert before + LabelEvents([], session) == before;
    for i := 0 to |labels|
      invariant r == Build(before + LabelEvents(labels[..i], session))
    {
      var e := Event(labels[i], session);
      assert labels[..i + 1][..i] == labels[..i];
      BuildJoin(before + LabelEvents(labels[..i], session), e);
      assert before + LabelEvents(labels[..i + 1], session) == (before + LabelEvents(labels[..i], session)) + [e];
      r := Add(r, e);
    }
    assert labels[..|labels|] == labels;
  }

  method CountArtifacts(arts: seq<Artifact>) returns (errors: Table, tools: Table, packs: Table)
    ensures errors == Build(Events(arts, FrequentFailure))
    ensures tools == Build(Events(arts, ToolOveruse))
    ensures packs == Build(Events(arts, SkillDrift))
  {
    errors, tools, packs := EMPTY, EMPTY, EMPTY;
    for i := 0 to |arts|
      invariant errors == Build(Events(arts[..i], FrequentFailure))
      invariant tools == Build(Events(arts[..i], ToolOveruse))
      invariant packs == Build(Events(arts[..i], SkillDrift))
    {
      var art := arts[i];
      assert arts[..i + 1][..i] == arts[..i];
      if art.errorKind != "" {
        BuildJoin(Events(arts[..i], FrequentFailure), Event(art.errorKind, art.session));
        errors := Add(errors, Event(art.errorKind, art.session));
      } else {
        assert Events(arts[..i], FrequentFailure) + [] == Events(arts[..i], FrequentFailure);
      }
      tools := AddAll(tools, art.tools, art.session, Events(arts[..i], ToolOveruse));
      packs := AddAll(packs, art.packs, art.session, Events(arts[..i], SkillDrift));
    }
    assert arts[..|arts|] == arts;
  }

  lemma BuildSorted(events: seq<Event>, k: nat)
    ensures var t := Build(events); t.counts.Keys == t.buckets.Keys && Descending(MostCommon(t, k), t.counts)
  {
    BuildDescribes(events);
    MostCommonDescends(Build(events), events, k);
  }

  // --- The families inside the report ---

  lemma NumberNext(items: seq<Item>, item: Item, c: Category)
    ensures Number(items + [item], c) == Number(items, c) + if item.category == c then 1 else 0
  {
    var all, n := items + [item], |items|;
    assert (set i | 0 <= i < |all| && all[i].category == c)
        == (set i | 0 <= i < n && items[i].category == c) + if item.category == c then {n} else {};
  }

  // The items of category `c` are those from `low` to `high`.
  ghost predicate Span(items: seq<Item>, c: Category, low: int, high: int) {
    0 <= low <= high <= |items| && forall i :: 0 <= i < |items| ==> (items[i].category == c <==> low <= i < high)
  }

  lemma {:induction false} NumberOfSpan(items: seq<Item>, c: Category, low: int, high: int)
    requires Span(items, c, low, high)
    ensures Number(items, c) == high - low
  {
    if items != [] {
      var n := |items| - 1;
      NumberNext(items[..n], items[n], c);
      assert items == items[..n] + [items[n]];
      if high <= n {
        NumberOfSpan(items[..n], c, low, high);
      } else if low < high {
        NumberOfSpan(items[..n], c, low, n);
      } else {
        NumberOfSpan(items[..n], c, n, n);
      }
    }
  }

  lemma LeadsIs(arts: seq<Artifact>, c: Category, a: Label, b: Label)
    requires Outranks(Events(arts, c), a, b)
    ensures Leads(Lists(arts, c), a, b)
  {
    UsesAre(arts, c, a);
    UsesAre(arts, c, b);
    if Occurrences(Events(arts, c), a) == Occurrences(Events(arts, c), b) {
      SeenFirstIsListedFirst(arts, c, a, b);
    }
  }

  lemma TrueItemIs(item: Item, arts: seq<Artifact>)
    requires GoodItem(item, arts)
    ensures TrueItem(item, arts, Lists(arts, item.category))
  {
    var c, l := item.category, item.about;
    UsesAre(arts, c, l);
    EvidenceIsFirst(arts, c, l);
    TakeFirst(Distinct(SessionsWith(Events(arts, c), l)), 5, arts, Carrying(arts, c, l));
    var lists := Lists(arts, c);
    assert Carrying(arts, c, l) == seq(|arts|, i requires 0 <= i < |arts| => l in lists[i]);
  }

  lemma FamilyLeads(f: seq<Item>, arts: seq<Artifact>, c: Category, k: nat, l: Label)
    requires FamilyItems(f, arts, c, k) && Uses(Lists(arts, c), l) >= 2 && forall i :: 0 <= i < |f| ==> f[i].about != l
    ensures |f| == k && forall i :: 0 <= i < |f| ==> Leads(Lists(arts, c), f[i].about, l)
  {
    UsesAre(arts, c, l);
    forall i | 0 <= i < |f|
      ensures Leads(Lists(arts, c), f[i].about, l)
    {
      LeadsIs(arts, c, f[i].about, l);
    }
  }

  // A family reports its category wherever its items stand, if no other item has that category.
  lemma FamilyReported(items: seq<Item>, low: int, f: seq<Item>, arts: seq<Artifact>, c: Category, k: nat)
    requires Span(items, c, low, low + |f|) && items[low..low + |f|] == f && FamilyItems(f, arts, c, k)
    ensures Reports(items, c, arts, Lists(arts, c), k)
  {
    var lists := Lists(arts, c);
    NumberOfSpan(items, c, low, low + |f|);
    assert forall i :: low <= i < low + |f| ==> items[i] == f[i - low];
    forall i | 0 <= i < |items| && items[i].category == c
      ensures TrueItem(items[i], arts, lists)
    {
      TrueItemIs(f[i - low], arts);
    }
    forall i, j | 0 <= i < j < |items| && items[i].category == c && items[j].category == c
      ensures Leads(lists, items[i].about, items[j].about)
    {
      LeadsIs(arts, c, f[i - low].about, f[j - low].about);
    }
    forall l | Uses(lists, l) >= 2 && !Reported(items, c, l)
      ensures |f| == k && AllLead(items, c, lists, l)
    {
      forall i | 0 <= i < |f|
        ensures f[i].about != l
      {
        assert f[i] == items[low + i];
      }
      FamilyLeads(f, arts, c, k, l);
    }
  }

  // The cut at seven takes the second pack after six errors and tools.
  lemma CutPacks(arts: seq<Artifact>, p: seq<Item>)
    requires FamilyItems(p, arts, SkillDrift, 2)
    ensures FamilyItems(Take(1, p), arts, SkillDrift, 1)
  {
    if |p| == 2 {
      assert forall i :: 0 <= i < 1 ==> Take(1, p)[i] == p[i];
      forall l | Occurrences(Events(arts, SkillDrift), l) >= 2 && Take(1, p)[0].about != l
        ensures Outranks(Events(arts, SkillDrift), p[0].about, l)
      {
        assert p[1].about == l || forall i :: 0 <= i < 2 ==> p[i].about != l;
      }
    }
  }

  ghost predicate AllOf(items: seq<Item>, c: Category) {
    forall i :: 0 <= i < |items| ==> items[i].category == c
  }

  // Errors, tools and packs one after the other, then items of none of these categories.
  ghost predicate Laid(items: seq<Item>, e: seq<Item>, t: seq<Item>, p: seq<Item>) {
    var n := |e| + |t|;
    && Span(items, FrequentFailure, 0, |e|) && items[0..|e|] == e
    && Span(items, ToolOveruse, |e|, n) && items[|e|..n] == t
    && Span(items, SkillDrift, n, n + |p|) && items[n..n + |p|] == p
  }

  lemma LaidOut(e: seq<Item>, t: seq<Item>, p: seq<Item>, rest: seq<Item>)
    requires AllOf(e, FrequentFailure) && AllOf(t, ToolOveruse) && AllOf(p, SkillDrift) && AllOf(rest, General)
    ensures Laid(e + t + p + rest, e, t, p)
  {
    var items, n, m := e + t + p + rest, |e| + |t|, |e| + |t| + |p|;
    assert forall i :: 0 <= i < |items| ==>
      items[i] == if i < |e| then e[i] else if i < n then t[i - |e|] else if i < m then p[i - n] else rest[i - m];
  }

  lemma FamilyShape(arts: seq<Artifact>, c: Category, k: nat)
    ensures |FamilyOf(arts, c, k)| <= k && AllOf(FamilyOf(arts, c, k), c)
  {
    FamilyIs(arts, c, k);
  }

  lemma CutAtSeven(e: seq<Item>, t: seq<Item>, p: seq<Item>)
    requires |e| <= 3 && |t| <= 3 && |p| <= 2
    ensures Take(7, e + t + p) == e + t + Take(if |e| + |t| == 6 then 1 else 2, p)
  {
  }

  ghost predicate ItemsLaid(arts: seq<Artifact>, e: seq<Item>, t: seq<Item>, p: seq<Item>) {
    Laid(Items(arts), e, t, Take(if |e| + |t| == 6 then 1 else 2, p))
  }

  lemma ItemsAreLaid(arts: seq<Artifact>)
    ensures ItemsLaid(arts, FamilyOf(arts, FrequentFailure, 3), FamilyOf(arts, ToolOveruse, 3), FamilyOf(arts, SkillDrift, 2))
  {
    var e, t, p := FamilyOf(arts, FrequentFailure, 3), FamilyOf(arts, ToolOveruse, 3), FamilyOf(arts, SkillDrift, 2);
    FamilyShape(arts, FrequentFailure, 3);
    FamilyShape(arts, ToolOveruse, 3);
    FamilyShape(arts, SkillDrift, 2);
    CutAtSeven(e, t, p);
    var q := Take(if |e| + |t| == 6 then 1 else 2, p);
    assert AllOf(q, SkillDrift);
    if e + t + p == [] {
      LaidOut(e, t, q, [QuietItem(arts)]);
      assert e + t + q + [QuietItem(arts)] == [QuietItem(arts)];
    } else {
      LaidOut(e, t, q, []);
      assert e + t + q + [] == e + t + q;
    }
  }

  lemma FirstReported(items: seq<Item>, e: seq<Item>, t: seq<Item>, p: seq<Item>, arts: seq<Artifact>)
    requires Laid(items, e, t, p) && FamilyItems(e, arts, FrequentFailure, 3) && FamilyItems(t, arts, ToolOveruse, 3)
    ensures Reports(items, FrequentFailure, arts, Lists(arts, FrequentFailure), 3)
    ensures Reports(items, ToolOveruse, arts, Lists(arts, ToolOveruse), 3)
  {
    FamilyReported(items, 0, e, arts, FrequentFailure, 3);
    FamilyReported(items, |e|, t, arts, ToolOveruse, 3);
  }

  lemma ErrorsAndToolsReported(arts: seq<Artifact>)
    ensures Reports(Items(arts), FrequentFailure, arts, Lists(arts, FrequentFailure), 3)
    ensures Reports(Items(arts), ToolOveruse, arts, Lists(arts, ToolOveruse), 3)
  {
    var e, t, p := FamilyOf(arts, FrequentFailure, 3), FamilyOf(arts, ToolOveruse, 3), FamilyOf(arts, SkillDrift, 2);
    ItemsAreLaid(arts);
    FamilyIs(arts, FrequentFailure, 3);
    FamilyIs(arts, ToolOveruse, 3);
    FirstReported(Items(arts), e, t, Take(if |e| + |t| == 6 then 1 else 2, p), arts);
  }

  lemma PacksCut(arts: seq<Artifact>, k: nat)
    requires k == 1 || k == 2
    ensures FamilyItems(Take(k, FamilyOf(arts, SkillDrift, 2)), arts, SkillDrift, k)
  {
    FamilyIs(arts, SkillDrift, 2);
    if k == 1 {
      CutPacks(arts, FamilyOf(arts, SkillDrift, 2));
    }
  }

  lemma ErrorsAndTools(arts: seq<Artifact>)
    ensures Number(Items(arts), FrequentFailure) == |FamilyOf(arts, FrequentFailure, 3)|
    ensures Number(Items(arts), ToolOveruse) == |FamilyOf(arts, ToolOveruse, 3)|
  {
    ItemsAreLaid(arts);
    var n, m := |FamilyOf(arts, FrequentFailure, 3)|, |FamilyOf(arts, ToolOveruse, 3)|;
    NumberOfSpan(Items(arts), FrequentFailure, 0, n);
    NumberOfSpan(Items(arts), ToolOveruse, n, n + m);
  }

  lemma LastReported(items: seq<Item>, e: seq<Item>, t: seq<Item>, q: seq<Item>, arts: seq<Artifact>, k: nat)
    requires Laid(items, e, t, q) && FamilyItems(q, arts, SkillDrift, k)
    ensures Reports(items, SkillDrift, arts, Lists(arts, SkillDrift), k)
  {
    FamilyReported(items, |e| + |t|, q, arts, SkillDrift, k);
  }

  lemma PacksReportedIn(arts: seq<Artifact>, k: nat)
    requires k == if |FamilyOf(arts, FrequentFailure, 3)| + |FamilyOf(arts, ToolOveruse, 3)| == 6 then 1 else 2
    ensures Reports(Items(arts), SkillDrift, arts, Lists(arts, SkillDrift), k)
  {
    ItemsAreLaid(arts);
    PacksCut(arts, k);
    var e, t, p := FamilyOf(arts, FrequentFailure, 3), FamilyOf(arts, ToolOveruse, 3), FamilyOf(arts, SkillDrift, 2);
    LastReported(Items(arts), e, t, Take(k, p), arts, k);
  }

  lemma PacksReported(arts: seq<Artifact>)
    ensures var items := Items(arts);
            Reports(items, SkillDrift, arts, Lists(arts, SkillDrift),
                    if Number(items, FrequentFailure) + Number(items, ToolOveruse) == 6 then 1 else 2)
  {
    ErrorsAndTools(arts);
    PacksReportedIn(arts, if |FamilyOf(arts, FrequentFailure, 3)| + |FamilyOf(arts, ToolOveruse, 3)| == 6 then 1 else 2);
  }

  lemma ItemsInOrder(arts: seq<Artifact>)
    ensures var items := Items(arts);
            && (forall i, j :: 0 <= i < j < |items| && items[j].category.FrequentFailure? ==> items[i].category.FrequentFailure?)
            && (forall i, j :: 0 <= i < j < |items| && items[j].category.ToolOveruse? ==> !items[i].category.SkillDrift?)
  {
    ItemsAreLaid(arts);
  }

  lemma ListsAre(arts: seq<Artifact>)
    ensures seq(|arts|, i requires 0 <= i < |arts| => if arts[i].errorKind == "" then [] else [arts[i].errorKind]) == Lists(arts, FrequentFailure)
    ensures seq(|arts|, i requires 0 <= i < |arts| => arts[i].tools) == Lists(arts, ToolOveruse)
    ensures seq(|arts|, i requires 0 <= i < |arts| => arts[i].packs) == Lists(arts, SkillDrift)
  {
  }

  lemma ListsReported(arts: seq<Artifact>)
    ensures Reports(Items(arts), FrequentFailure, arts,
                    seq(|arts|, i requires 0 <= i < |arts| => if arts[i].errorKind == "" then [] else [arts[i].errorKind]), 3)
    ensures Reports(Items(arts), ToolOveruse, arts, seq(|arts|, i requires 0 <= i < |arts| => arts[i].tools), 3)
    ensures Reports(Items(arts), SkillDrift, arts, seq(|arts|, i requires 0 <= i < |arts| => arts[i].packs),
                    if Number(Items(arts), FrequentFailure) + Number(Items(arts), ToolOveruse) == 6 then 1 else 2)
  {
    ListsAre(arts);
    ErrorsAndToolsReported(arts);
    PacksReported(arts);
  }

  method FindItems(arts: seq<Artifact>) returns (items: seq<Item>)
    ensures items == Items(arts)
  {
    var errors, tools, packs := CountArtifacts(arts);
    BuildSorted(Events(arts, FrequentFailure), 3);
    BuildSorted(Events(arts, ToolOveruse), 3);
    BuildSorted(Events(arts, SkillDrift), 2);
    var a := ItemsFor(errors, 3, FrequentFailure);
    var b := ItemsFor(tools, 3, ToolOveruse);
    var c := ItemsFor(packs, 2, SkillDrift);
    items := a + b + c;
    if items == [] {
      var sessions := UniqueSessions(AllSessions(arts), 5);
      items := [Item(General, "", sessions, |arts|)];
    }
    items := if |items| > 7 then items[..7] else items;
  }

  ghost predicate AllGood(items: seq<Item>, arts: seq<Artifact>) {
    forall i :: 0 <= i < |items| ==> GoodItem(items[i], arts)
  }

  ghost predicate FamilyRepeats(arts: seq<Artifact>, c: Category) {
    exists l :: Occurrences(Events(arts, c), l) >= 2
  }

  lemma FamilyBasics(arts: seq<Artifact>, c: Category, k: nat)
    requires k >= 1
    ensures |FamilyOf(arts, c, k)| <= k && AllGood(FamilyOf(arts, c, k), arts)
    ensures FamilyOf(arts, c, k) == [] ==> !FamilyRepeats(arts, c)
  {
    FamilyIs(arts, c, k);
  }

  lemma JoinGood(arts: seq<Artifact>, a: seq<Item>, b: seq<Item>, c: seq<Item>)
    requires AllGood(a, arts) && AllGood(b, arts) && AllGood(c, arts)
    ensures AllGood(a + b + c, arts)
  {
  }

  ghost predicate NothingRepeats(arts: seq<Artifact>) {
    forall c, l :: Occurrences(Events(arts, c), l) < 2
  }

  lemma {:induction false} NoGeneralEvents(arts: seq<Artifact>)
    ensures Events(arts, General) == []
  {
    if arts != [] {
      NoGeneralEvents(arts[..|arts| - 1]);
    }
  }

  lemma NoneMeansNoRepeats(arts: seq<Artifact>)
    requires !FamilyRepeats(arts, FrequentFailure) && !FamilyRepeats(arts, ToolOveruse) && !FamilyRepeats(arts, SkillDrift)
    ensures NothingRepeats(arts)
  {
    NoGeneralEvents(arts);
    forall c, l
      ensures Occurrences(Events(arts, c), l) < 2
    {
      assert c.General? || !FamilyRepeats(arts, c);
    }
  }

  lemma SomethingRepeats(arts: seq<Artifact>, item: Item)
    requires GoodItem(item, arts)
    ensures !NothingRepeats(arts)
  {
  }

  lemma QuietIff(arts: seq<Artifact>, e: seq<Item>, t: seq<Item>, p: seq<Item>)
    requires AllGood(e + t + p, arts)
    requires e == [] ==> !FamilyRepeats(arts, FrequentFailure)
    requires t == [] ==> !FamilyRepeats(arts, ToolOveruse)
    requires p == [] ==> !FamilyRepeats(arts, SkillDrift)
    ensures e + t + p == [] <==> NothingRepeats(arts)
  {
    if e + t + p == [] {
      assert e == [] && t == [] && p == [];
      NoneMeansNoRepeats(arts);
    } else {
      SomethingRepeats(arts, (e + t + p)[0]);
    }
  }

  /** The result has one to seven items; it is the single neutral one exactly when no
      label of any family occurs twice, and otherwise every item is a cluster. */
  lemma ItemsAre(arts: seq<Artifact>)
    ensures 1 <= |Items(arts)| <= 7
    ensures NothingRepeats(arts) ==> Items(arts) == [QuietItem(arts)]
    ensures !NothingRepeats(arts) ==> AllGood(Items(arts), arts)
  {
    var e, t, p := FamilyOf(arts, FrequentFailure, 3), FamilyOf(arts, ToolOveruse, 3), FamilyOf(arts, SkillDrift, 2);
    FamilyBasics(arts, FrequentFailure, 3);
    FamilyBasics(arts, ToolOveruse, 3);
    FamilyBasics(arts, SkillDrift, 2);
    JoinGood(arts, e, t, p);
    QuietIff(arts, e, t, p);
  }

  lemma QuietIs(arts: seq<Artifact>)
    ensures forall i :: 0 <= i < |Items(arts)| && Items(arts)[i].category.General? ==>
              && |Items(arts)| == 1 && Items(arts)[0].about == "" && Items(arts)[0].runCount == |arts|
              && FirstSessions(Items(arts)[0].sessions, 5, arts, seq(|arts|, _ => true))
  {
    ItemsAre(arts);
    NoGeneralEvents(arts);
    AllSessionsFirst(arts);
    TakeFirst(Distinct(AllSessions(arts)), 5, arts, Everyone(arts));
    assert Everyone(arts) == seq(|arts|, _ => true);
    if !NothingRepeats(arts) {
      forall i | 0 <= i < |Items(arts)|
        ensures !Items(arts)[i].category.General?
      {
        assert GoodItem(Items(arts)[i], arts);
      }
    }
  }

  method HeuristicItems(arts: seq<Artifact>) returns (items: seq<Item>)
    ensures items == Items(arts)
    ensures 1 <= |items| <= 7
    ensures Reports(items, FrequentFailure, arts,
                    seq(|arts|, i requires 0 <= i < |arts| => if arts[i].errorKind == "" then [] else [arts[i].errorKind]), 3)
    ensures Reports(items, ToolOveruse, arts, seq(|arts|, i requires 0 <= i < |arts| => arts[i].tools), 3)
    ensures Reports(items, SkillDrift, arts, seq(|arts|, i requires 0 <= i < |arts| => arts[i].packs),
                    if Number(items, FrequentFailure) + Number(items, ToolOveruse) == 6 then 1 else 2)
    ensures forall i, j :: 0 <= i < j < |items| && items[j].category.FrequentFailure? ==> items[i].category.FrequentFailure?
    ensures forall i, j :: 0 <= i < j < |items| && items[j].category.ToolOveruse? ==> !items[i].category.SkillDrift?
    ensures forall i :: 0 <= i < |items| && items[i].category.General? ==>
              && |items| == 1 && items[0].about == "" && items[0].runCount == |arts|
              && FirstSessions(items[0].sessions, 5, arts, seq(|arts|, _ => true))
  {
    items := FindItems(arts);
    ItemsAre(arts);
    ListsReported(arts);
    ItemsInOrder(arts);
    QuietIs(arts);
  }

  // --- What a reader of an item may rely on ----------------------------------------------------

  ghost predicate Carries(a: Artifact, c: Category, l: Label) {
    match c
    case FrequentFailure => a.errorKind == l && l != ""
    case ToolOveruse => l in a.tools
    case SkillDrift => l in a.packs
    case General => false
  }

  lemma {:induction false} LabelEventsIs(labels: seq<Label>, session: Session, l: Label)
    ensures (exists e :: e in LabelEvents(labels, session) && e.name == l) <==> l in labels
    ensures forall e :: e in LabelEvents(labels, session) ==> e.session == session
  {
    if labels != [] {
      var front, last := labels[..|labels| - 1], labels[|labels| - 1];
      LabelEventsIs(front, session, l);
      assert labels == front + [last];
      var events := LabelEvents(labels, session);
      assert events[|events| - 1] == Event(last, session);
      if last == l {
        assert Event(last, session) in events;
      } else if l in front {
        var e :| e in LabelEvents(front, session) && e.name == l;
        assert e in events;
      }
    }
  }

  lemma {:induction false} EventsCarry(arts: seq<Artifact>, c: Category, e: Event)
    requires e in Events(arts, c)
    ensures exists a :: a in arts && a.session == e.session && Carries(a, c, e.name)
  {
    var front, last := arts[..|arts| - 1], arts[|arts| - 1];
    assert arts == front + [last];
    if e in Events(front, c) {
      EventsCarry(front, c, e);
      var a :| a in front && a.session == e.session && Carries(a, c, e.name);
      assert a in arts;
    } else {
      assert e in EventsOf(last, c);
      LabelEventsIs(last.tools, last.session, e.name);
      LabelEventsIs(last.packs, last.session, e.name);
      assert last in arts && Carries(last, c, e.name);
    }
  }

  lemma {:induction false} SessionsComeFromEvents(events: seq<Event>, l: Label, s: Session)
    requires s in SessionsWith(events, l)
    ensures Event(l, s) in events
  {
    var front, last := events[..|events| - 1], events[|events| - 1];
    assert events == front + [last];
    if s in SessionsWith(front, l) {
      SessionsComeFromEvents(front, l, s);
    } else {
      assert last == Event(l, s);
    }
  }

  /** The evidence of a cluster: at most five different sessions, each of an artifact
      that carries the label. */
  lemma EvidenceIsSound(item: Item, arts: seq<Artifact>)
    requires GoodItem(item, arts)
    ensures |item.sessions| <= 5 && NoDup(item.sessions)
    ensures forall s :: s in item.sessions ==> exists a :: a in arts && a.session == s && Carries(a, item.category, item.about)
  {
    var events := Events(arts, item.category);
    var all := SessionsWith(events, item.about);
    DistinctIs(all);
    forall s | s in item.sessions
      ensures exists a :: a in arts && a.session == s && Carries(a, item.category, item.about)
    {
      assert s in Distinct(all);
      SessionsComeFromEvents(events, item.about, s);
      EventsCarry(arts, item.category, Event(item.about, s));
    }
  }

  // --- Occurrences against runs -------------------------------------------------------------

  // How many of the artifacts carry the label.
  ghost function Runs(arts: seq<Artifact>, c: Category, l: Label): nat {
    if arts == [] then 0 else Runs(arts[..|arts| - 1], c, l) + if Carries(arts[|arts| - 1], c, l) then 1 else 0
  }

  ghost predicate AtMostOnce(labels: seq<Label>, l: Label) {
    forall i, j :: 0 <= i < j < |labels| ==> labels[i] != l || labels[j] != l
  }

  // The artifact does not list the label twice.
  ghost predicate ListsOnce(a: Artifact, c: Category, l: Label) {
    (c.ToolOveruse? ==> AtMostOnce(a.tools, l)) && (c.SkillDrift? ==> AtMostOnce(a.packs, l))
  }

  ghost predicate AllListOnce(arts: seq<Artifact>, c: Category, l: Label) {
    forall i :: 0 <= i < |arts| ==> ListsOnce(arts[i], c, l)
  }

  lemma AllListOnceNext(front: seq<Artifact>, last: Artifact, c: Category, l: Label)
    ensures AllListOnce(front + [last], c, l) <==> AllListOnce(front, c, l) && ListsOnce(last, c, l)
  {
    var arts := front + [last];
    assert arts[|front|] == last && forall i :: 0 <= i < |front| ==> front[i] == arts[i];
  }

  lemma {:induction false} OccurrencesInList(labels: seq<Label>, session: Session, l: Label)
    ensures Occurrences(LabelEvents(labels, session), l) >= 1 <==> l in labels
    ensures Occurrences(LabelEvents(labels, session), l) <= 1 <==> AtMostOnce(labels, l)
  {
    if labels != [] {
      var front, last := labels[..|labels| - 1], labels[|labels| - 1];
      OccurrencesInList(front, session, l);
      assert labels == front + [last];
      assert AtMostOnce(labels, l) <==> AtMostOnce(front, l) && (last == l ==> l !in front);
    }
  }

  lemma OccurrencesInRun(a: Artifact, c: Category, l: Label)
    ensures Occurrences(EventsOf(a, c), l) >= 1 <==> Carries(a, c, l)
    ensures Occurrences(EventsOf(a, c), l) <= 1 <==> ListsOnce(a, c, l)
  {
    OccurrencesInList(a.tools, a.session, l);
    OccurrencesInList(a.packs, a.session, l);
    assert Occurrences([], l) == 0;
    var e := Event(a.errorKind, a.session);
    assert Occurrences([e], l) == if e.name == l then 1 else 0 by {
      assert [e][..0] == [];
    }
  }

  /** The count that the item's text reports as a number of runs is that number
      exactly when no run lists the label twice; error kinds always satisfy this. */
  lemma {:induction false} RunCountIsRunsIff(arts: seq<Artifact>, c: Category, l: Label)
    ensures Occurrences(Events(arts, c), l) >= Runs(arts, c, l)
    ensures Occurrences(Events(arts, c), l) == Runs(arts, c, l) <==> AllListOnce(arts, c, l)
  {
    if arts != [] {
      var front, last := arts[..|arts| - 1], arts[|arts| - 1];
      RunCountIsRunsIff(front, c, l);
      OccurrencesJoin(Events(front, c), EventsOf(last, c), l);
      OccurrencesInRun(last, c, l);
      AllListOnceNext(front, last, c, l);
      assert arts == front + [last];
    }
  }
}
