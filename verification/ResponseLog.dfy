/** Large collections in logged responses (server/middleware/logging/response_log.go).

    A response is a tree of messages. `ListsIn` lists its repeated fields in document order and `NodesOf`
    the depths of all the items in and below a repeated message. The methods that search and count are
    proved against these two listings, the listings against the routes of fields and elements that lead
    to the lists, and the depths against the lists. */
module ResponseLog {
  import opened Common

  const LIST_ITEM_LIMIT := 20
  const NODE_COUNT_LIMIT := 100
  const TREE_DEPTH_LIMIT := 5

  datatype Message = Message(fields: seq<Field>)

  datatype Field = Field(jsonName: string, content: Content)

  /** A map is given in its order of iteration; a value of it that is not a message is None. A group is not a message
      kind: a single one is Plain and a list of them counts as scalars. */
  datatype Content =
    | Plain
    | Repeated(list: List)
    | Mapped(entries: seq<Entry>)
    | Single(message: Option<Message>)

  datatype List = Scalars(len: nat) | Messages(items: seq<Message>) {
    function Size(): nat { if Scalars? then len else |items| }
  }

  datatype Entry = Entry(key: string, value: Option<Message>)

  datatype Kind = ListKind | TreeKind

  datatype Hit = Hit(path: string, kind: Kind, topLevelCount: nat, totalNodeCount: nat, maxDepth: nat)

  datatype Stats = Stats(topLevelCount: nat, totalNodeCount: nat, maxDepth: nat)

  function JoinPath(parent: string, name: string): string {
    if parent == "" then name else parent + "." + name
  }

  function Larger(a: nat, b: nat): nat { if a < b then b else a }

  // ----- the items below a repeated message, by their depths -----

  /** An item is one deeper than the item it lies in; maps and single messages on the way do not count. */
  ghost function NodesOf(items: seq<Message>, n: nat, depth: nat): seq<nat>
    requires n <= |items|
    decreases items, n
  {
    if n == 0 then [] else NodesOf(items, n - 1, depth) + [depth] + Below(items[n - 1], depth)
  }

  ghost function Below(m: Message, depth: nat): seq<nat>
    decreases m, 1
  {
    FieldsBelow(m.fields, |m.fields|, depth)
  }

  ghost function FieldsBelow(fields: seq<Field>, n: nat, depth: nat): seq<nat>
    requires n <= |fields|
    decreases fields, n
  {
    if n == 0 then [] else FieldsBelow(fields, n - 1, depth) + FieldBelow(fields[n - 1], depth)
  }

  ghost function FieldBelow(f: Field, depth: nat): seq<nat>
    decreases f, 1
  {
    match f.content
    case Repeated(Messages(items)) => NodesOf(items, |items|, depth + 1)
    case Mapped(entries) => EntriesBelow(entries, |entries|, depth)
    case Single(Some(m)) => Below(m, depth)
    case _ => []
  }

  ghost function EntriesBelow(entries: seq<Entry>, n: nat, depth: nat): seq<nat>
    requires n <= |entries|
    decreases entries, n
  {
    if n == 0 then [] else EntriesBelow(entries, n - 1, depth) + ValueBelow(entries[n - 1], depth)
  }

  ghost function ValueBelow(e: Entry, depth: nat): seq<nat>
    decreases e, 1
  {
    if e.value.None? then [] else Below(e.value.value, depth)
  }

  ghost function Max(s: seq<nat>): nat {
    if s == [] then 0 else Larger(Max(s[..|s| - 1]), s[|s| - 1])
  }

  lemma {:induction false} MaxJoin(s: seq<nat>, t: seq<nat>)
    ensures Max(s + t) == Larger(Max(s), Max(t))
  {
    if t == [] {
      assert s + t == s;
    } else {
      MaxJoin(s, t[..|t| - 1]);
      assert (s + t)[..|s + t| - 1] == s + t[..|t| - 1];
    }
  }

  /** The number of items in and below a repeated message, and the nesting of its deepest. */
  ghost function Count(items: seq<Message>): nat { |NodesOf(items, |items|, 1)| }

  ghost function Depth(items: seq<Message>): nat { Max(NodesOf(items, |items|, 1)) }

  // ----- counting -----

  /** What a count of the nodes `s` found below `depth` reports. */
  ghost predicate Tallies(stats: Stats, s: seq<nat>, depth: nat) {
    stats.totalNodeCount == |s| && stats.maxDepth == Larger(depth, Max(s))
  }

  lemma {:induction false} NodesReachDepth(items: seq<Message>, n: nat, depth: nat)
    requires 0 < n <= |items|
    ensures Max(NodesOf(items, n, depth)) >= depth
  {
    hide Below, NodesOf, Max;
    NodesOfLast(items, n, depth);
    MaxJoin(NodesOf(items, n - 1, depth), [depth]);
    MaxJoin(NodesOf(items, n - 1, depth) + [depth], Below(items[n - 1], depth));
    MaxOne(depth);
  }

  lemma {:induction false} NodesOfLast(items: seq<Message>, n: nat, depth: nat)
    requires 0 < n <= |items|
    ensures NodesOf(items, n, depth) == NodesOf(items, n - 1, depth) + [depth] + Below(items[n - 1], depth)
  {
  }

  lemma {:induction false} MaxNone()
    ensures Max([]) == 0
  {
  }

  lemma {:induction false} MaxOne(d: nat)
    ensures Max([d]) == d
  {
    assert [d][..0] == [];
  }

  method CollectMessageListStats(items: seq<Message>, depth: nat) returns (stats: Stats)
    ensures stats.topLevelCount == |items|
    ensures Tallies(stats, NodesOf(items, |items|, depth), depth)
    decreases items
  {
    hide Below, Max;
    stats := Stats(|items|, 0, depth);
    MaxNone();
    for i := 0 to |items|
      invariant stats.topLevelCount == |items|
      invariant Tallies(stats, NodesOf(items, i, depth), depth)
    {
      var nodeStats := CollectMessageNodeStats(items[i], depth);
      MaxJoin(NodesOf(items, i, depth), [depth] + Below(items[i], depth));
      assert NodesOf(items, i + 1, depth) == NodesOf(items, i, depth) + ([depth] + Below(items[i], depth));
      stats := stats.(totalNodeCount := stats.totalNodeCount + nodeStats.totalNodeCount);
      if nodeStats.maxDepth > stats.maxDepth {
        stats := stats.(maxDepth := nodeStats.maxDepth);
      }
    }
  }

  method CollectMessageNodeStats(m: Message, depth: nat) returns (stats: Stats)
    ensures Tallies(stats, [depth] + Below(m, depth), depth)
    decreases m, 2
  {
    hide Below, Max;
    stats := Stats(0, 1, depth);
    var descendantStats := CollectMessageDescendantStats(m, depth);
    MaxOne(depth);
    MaxJoin([depth], Below(m, depth));
    stats := stats.(totalNodeCount := stats.totalNodeCount + descendantStats.totalNodeCount);
    if descendantStats.maxDepth > stats.maxDepth {
      stats := stats.(maxDepth := descendantStats.maxDepth);
    }
  }

  method CollectMessageDescendantStats(m: Message, depth: nat) returns (stats: Stats)
    ensures stats.topLevelCount == 0
    ensures Tallies(stats, Below(m, depth), depth)
    decreases m, 1
  {
    hide FieldBelow, Max;
    stats := Stats(0, 0, depth);
    MaxNone();
    var fields := m.fields;
    for i := 0 to |fields|
      invariant stats.topLevelCount == 0
      invariant Tallies(stats, FieldsBelow(fields, i, depth), depth)
    {
      var childStats := CollectFieldStats(fields[i], depth);
      MaxJoin(FieldsBelow(fields, i, depth), FieldBelow(fields[i], depth));
      stats := stats.(totalNodeCount := stats.totalNodeCount + childStats.totalNodeCount);
      if childStats.maxDepth > stats.maxDepth {
        stats := stats.(maxDepth := childStats.maxDepth);
      }
    }
  }

  /** The cases of the loop over the fields; a field with nothing to count leaves the statistics as they are. */
  method CollectFieldStats(f: Field, depth: nat) returns (stats: Stats)
    ensures Tallies(stats, FieldBelow(f, depth), depth)
    decreases f, 1
  {
    hide Below, Max, NodesOf, EntriesBelow;
    MaxNone();
    stats := Stats(0, 0, depth);
    match f.content
    case Repeated(Messages(items)) =>
      if |items| > 0 {
        stats := CollectMessageListStats(items, depth + 1);
        NodesReachDepth(items, |items|, depth + 1);
      } else {
        NoNodes(items, depth + 1);
      }
    case Mapped(entries) =>
      stats := CollectMessageMapStats(entries, depth);
    case Single(Some(m)) =>
      stats := CollectMessageDescendantStats(m, depth);
    case _ =>
  }

  lemma {:induction false} NoNodes(items: seq<Message>, depth: nat)
    ensures NodesOf(items, 0, depth) == []
  {
  }

  method CollectMessageMapStats(entries: seq<Entry>, depth: nat) returns (stats: Stats)
    ensures Tallies(stats, EntriesBelow(entries, |entries|, depth), depth)
    decreases entries
  {
    hide Below, Max;
    stats := Stats(0, 0, depth);
    MaxNone();
    for i := 0 to |entries|
      invariant Tallies(stats, EntriesBelow(entries, i, depth), depth)
    {
      MaxJoin(EntriesBelow(entries, i, depth), ValueBelow(entries[i], depth));
      if entries[i].value.Some? {
        var childStats := CollectMessageDescendantStats(entries[i].value.value, depth);
        stats := stats.(totalNodeCount := stats.totalNodeCount + childStats.totalNodeCount);
        if childStats.maxDepth > stats.maxDepth {
          stats := stats.(maxDepth := childStats.maxDepth);
        }
      }
    }
  }

  // ----- all the lists of a response -----

  /** A repeated field with its path; `level` counts the repeated messages in items of which it lies. */
  datatype Found = Found(path: string, list: List, level: nat)

  ghost function ListsIn(m: Message, path: string, level: nat): seq<Found>
    decreases m, 1
  {
    FieldsLists(m.fields, |m.fields|, path, level)
  }

  ghost function FieldsLists(fields: seq<Field>, n: nat, path: string, level: nat): seq<Found>
    requires n <= |fields|
    decreases fields, n
  {
    if n == 0 then [] else FieldsLists(fields, n - 1, path, level) + FieldLists(fields[n - 1], path, level)
  }

  ghost function FieldLists(f: Field, parent: string, level: nat): seq<Found>
    decreases f, 1
  {
    var path := JoinPath(parent, f.jsonName);
    match f.content
    case Repeated(Scalars(_)) => [Found(path, f.content.list, level)]
    case Repeated(Messages(items)) => [Found(path, f.content.list, level)] + ItemsLists(items, |items|, path, level + 1)
    case Mapped(entries) => EntriesLists(entries, |entries|, path, level)
    case Single(Some(m)) => ListsIn(m, path, level)
    case _ => []
  }

  ghost function ItemsLists(items: seq<Message>, n: nat, path: string, level: nat): seq<Found>
    requires n <= |items|
    decreases items, n
  {
    if n == 0 then [] else ItemsLists(items, n - 1, path, level) + ListsIn(items[n - 1], path, level)
  }

  ghost function EntriesLists(entries: seq<Entry>, n: nat, path: string, level: nat): seq<Found>
    requires n <= |entries|
    decreases entries, n
  {
    if n == 0 then [] else EntriesLists(entries, n - 1, path, level) + ValueLists(entries[n - 1], path, level)
  }

  ghost function ValueLists(e: Entry, parent: string, level: nat): seq<Found>
    decreases e, 1
  {
    if e.value.None? then [] else ListsIn(e.value.value, JoinPath(parent, e.key), level)
  }

  ghost predicate TreeSized(list: List) {
    list.Messages? && (Count(list.items) > NODE_COUNT_LIMIT || Depth(list.items) > TREE_DEPTH_LIMIT)
  }

  ghost predicate TooLarge(list: List) {
    list.Size() > LIST_ITEM_LIMIT || TreeSized(list)
  }

  ghost function HitOf(found: Found): Hit {
    if found.list.Size() > LIST_ITEM_LIMIT || found.list.Scalars? then
      Hit(found.path, ListKind, found.list.Size(), found.list.Size(), 1)
    else
      Hit(found.path, TreeKind, found.list.Size(), Count(found.list.items), Depth(found.list.items))
  }

  ghost predicate NoneLarge(s: seq<Found>) {
    forall found :: found in s ==> !TooLarge(found.list)
  }

  /** The hit reports the first list in `s` that is too large, and there is one just when some list is. */
  ghost predicate ReportsFirst(s: seq<Found>, hit: Option<Hit>) {
    if hit.None? then NoneLarge(s)
    else exists k :: 0 <= k < |s| && TooLarge(s[k].list) && hit.value == HitOf(s[k]) && NoneLarge(s[..k])
  }

  lemma {:induction false} HitInFirst(s: seq<Found>, t: seq<Found>, hit: Hit)
    requires ReportsFirst(s, Some(hit))
    ensures ReportsFirst(s + t, Some(hit))
  {
    hide TooLarge, HitOf;
    var k :| 0 <= k < |s| && TooLarge(s[k].list) && hit == HitOf(s[k]) && NoneLarge(s[..k]);
    assert (s + t)[..k] == s[..k] && (s + t)[k] == s[k];
  }

  lemma {:induction false} HitInSecond(s: seq<Found>, t: seq<Found>, hit: Option<Hit>)
    requires NoneLarge(s) && ReportsFirst(t, hit)
    ensures ReportsFirst(s + t, hit)
  {
    hide TooLarge, HitOf;
    if hit.Some? {
      var k :| 0 <= k < |t| && TooLarge(t[k].list) && hit.value == HitOf(t[k]) && NoneLarge(t[..k]);
      assert (s + t)[..|s| + k] == s + t[..k] && (s + t)[|s| + k] == t[k];
    }
  }

  lemma {:induction false} FieldsListsGrow(fields: seq<Field>, n: nat, path: string, level: nat, hit: Hit)
    requires n <= |fields| && ReportsFirst(FieldsLists(fields, n, path, level), Some(hit))
    ensures ReportsFirst(FieldsLists(fields, |fields|, path, level), Some(hit))
    decreases |fields| - n
  {
    hide FieldLists, ReportsFirst;
    if n < |fields| {
      HitInFirst(FieldsLists(fields, n, path, level), FieldLists(fields[n], path, level), hit);
      FieldsListsGrow(fields, n + 1, path, level, hit);
    }
  }

  lemma {:induction false} ItemsListsGrow(items: seq<Message>, n: nat, path: string, level: nat, hit: Hit)
    requires n <= |items| && ReportsFirst(ItemsLists(items, n, path, level), Some(hit))
    ensures ReportsFirst(ItemsLists(items, |items|, path, level), Some(hit))
    decreases |items| - n
  {
    hide ListsIn, ReportsFirst;
    if n < |items| {
      HitInFirst(ItemsLists(items, n, path, level), ListsIn(items[n], path, level), hit);
      ItemsListsGrow(items, n + 1, path, level, hit);
    }
  }

  lemma {:induction false} EntriesListsGrow(entries: seq<Entry>, n: nat, path: string, level: nat, hit: Hit)
    requires n <= |entries| && ReportsFirst(EntriesLists(entries, n, path, level), Some(hit))
    ensures ReportsFirst(EntriesLists(entries, |entries|, path, level), Some(hit))
    decreases |entries| - n
  {
    hide ValueLists, ReportsFirst;
    if n < |entries| {
      HitInFirst(EntriesLists(entries, n, path, level), ValueLists(entries[n], path, level), hit);
      EntriesListsGrow(entries, n + 1, path, level, hit);
    }
  }

  // ----- the search -----

  method FindLargeCollectionInMessage(m: Message, parentPath: string, ghost level: nat) returns (hit: Option<Hit>)
    ensures ReportsFirst(ListsIn(m, parentPath, level), hit)
    decreases m, 1
  {
    hide FieldLists, TooLarge, HitOf;
    var fields := m.fields;
    for i := 0 to |fields|
      invariant NoneLarge(FieldsLists(fields, i, parentPath, level))
    {
      hit := FindInField(fields[i], parentPath, level);
      HitInSecond(FieldsLists(fields, i, parentPath, level), FieldLists(fields[i], parentPath, level), hit);
      if hit.Some? {
        FieldsListsGrow(fields, i + 1, parentPath, level, hit.value);
        return;
      }
    }
    return None;
  }

  /** The body of the loop over the fields. */
  method FindInField(f: Field, parentPath: string, ghost level: nat) returns (hit: Option<Hit>)
    ensures ReportsFirst(FieldLists(f, parentPath, level), hit)
    decreases f, 1
  {
    hide ListsIn, ItemsLists, EntriesLists, ReportsFirst;
    var fieldPath := JoinPath(parentPath, f.jsonName);
    match f.content
    case Repeated(Scalars(len)) =>
      ghost var found := Found(fieldPath, f.content.list, level);
      OneReported(found);
      if len > LIST_ITEM_LIMIT {
        return Some(Hit(fieldPath, ListKind, len, len, 1));
      }
      return None;
    case Repeated(Messages(items)) =>
      hit := FindInItems(items, fieldPath, level);
    case Mapped(entries) =>
      hit := FindLargeCollectionInMap(entries, fieldPath, level);
    case Single(Some(m)) =>
      hit := FindLargeCollectionInMessage(m, fieldPath, level);
    case _ =>
      NothingReported();
      return None;
  }

  lemma {:induction false} OneReported(found: Found)
    ensures ReportsFirst([found], if TooLarge(found.list) then Some(HitOf(found)) else None)
  {
    hide TooLarge, HitOf;
    if TooLarge(found.list) {
      assert [found][..0] == [] && [found][0] == found;
    }
  }

  lemma {:induction false} NothingReported()
    ensures ReportsFirst([], None)
  {
  }

  method FindInItems(items: seq<Message>, fieldPath: string, ghost level: nat) returns (hit: Option<Hit>)
    ensures ReportsFirst([Found(fieldPath, Messages(items), level)] +
            ItemsLists(items, |items|, fieldPath, level + 1), hit)
    decreases items
  {
    hide ListsIn, NodesOf, Max, ReportsFirst, NoneLarge;
    ghost var found := Found(fieldPath, Messages(items), level);
    OneReported(found);
    NoNodes(items, 1);
    MaxNone();
    if |items| == 0 {
      assert [found] + ItemsLists(items, |items|, fieldPath, level + 1) == [found];
      return None;
    }
    if |items| > LIST_ITEM_LIMIT {
      hit := Some(Hit(fieldPath, ListKind, |items|, |items|, 1));
      HitInFirst([found], ItemsLists(items, |items|, fieldPath, level + 1), hit.value);
      return;
    }
    var stats := CollectMessageListStats(items, 1);
    NodesReachDepth(items, |items|, 1);
    if stats.totalNodeCount > NODE_COUNT_LIMIT || stats.maxDepth > TREE_DEPTH_LIMIT {
      hit := Some(Hit(fieldPath, TreeKind, stats.topLevelCount, stats.totalNodeCount, stats.maxDepth));
      HitInFirst([found], ItemsLists(items, |items|, fieldPath, level + 1), hit.value);
      return;
    }
    hit := FindBelowItems(items, fieldPath, level + 1);
    NoneLargeIsNone([found]);
    HitInSecond([found], ItemsLists(items, |items|, fieldPath, level + 1), hit);
  }

  lemma {:induction false} NoneLargeIsNone(s: seq<Found>)
    ensures ReportsFirst(s, None) <==> NoneLarge(s)
  {
  }

  method FindBelowItems(items: seq<Message>, fieldPath: string, ghost level: nat) returns (hit: Option<Hit>)
    ensures ReportsFirst(ItemsLists(items, |items|, fieldPath, level), hit)
    decreases items, 0
  {
    hide ListsIn, TooLarge, HitOf;
    for j := 0 to |items|
      invariant NoneLarge(ItemsLists(items, j, fieldPath, level))
    {
      hit := FindLargeCollectionInMessage(items[j], fieldPath, level);
      HitInSecond(ItemsLists(items, j, fieldPath, level), ListsIn(items[j], fieldPath, level), hit);
      if hit.Some? {
        ItemsListsGrow(items, j + 1, fieldPath, level, hit.value);
        return;
      }
    }
    return None;
  }

  method FindLargeCollectionInMap(entries: seq<Entry>, parentPath: string, ghost level: nat)
    returns (hit: Option<Hit>)
    ensures ReportsFirst(EntriesLists(entries, |entries|, parentPath, level), hit)
    decreases entries
  {
    hide ListsIn, TooLarge, HitOf;
    for i := 0 to |entries|
      invariant NoneLarge(EntriesLists(entries, i, parentPath, level))
    {
      if entries[i].value.Some? {
        hit := FindLargeCollectionInMessage(entries[i].value.value, JoinPath(parentPath, entries[i].key), level);
        HitInSecond(EntriesLists(entries, i, parentPath, level), ValueLists(entries[i], parentPath, level), hit);
        if hit.Some? {
          EntriesListsGrow(entries, i + 1, parentPath, level, hit.value);
          return;
        }
      }
    }
    return None;
  }

  // ----- depths are relative -----

  ghost function Raise(s: seq<nat>, lift: nat): seq<nat> {
    seq(|s|, i requires 0 <= i < |s| => s[i] + lift)
  }

  lemma {:induction false} RaiseJoin(s: seq<nat>, t: seq<nat>, lift: nat)
    ensures Raise(s + t, lift) == Raise(s, lift) + Raise(t, lift)
  {
  }

  lemma {:induction false} RaiseOne(d: nat, lift: nat)
    ensures Raise([d], lift) == [d + lift]
  {
  }

  lemma {:induction false} MaxRaise(s: seq<nat>, lift: nat)
    requires s != []
    ensures Max(Raise(s, lift)) == Max(s) + lift
  {
    var front, last := s[..|s| - 1], s[|s| - 1];
    if front != [] {
      MaxRaise(front, lift);
      assert Raise(s, lift)[..|s| - 1] == Raise(front, lift);
    } else {
      assert s == [last];
      MaxOne(last);
      RaiseOne(last, lift);
      MaxOne(last + lift);
    }
  }

  /** Starting deeper makes every item that much deeper and adds none. */
  lemma {:induction false} NodesShift(items: seq<Message>, n: nat, depth: nat, lift: nat)
    requires n <= |items|
    ensures NodesOf(items, n, depth + lift) == Raise(NodesOf(items, n, depth), lift)
    decreases items, n
  {
    hide Below, Raise;
    if n > 0 {
      var before, one, below := NodesOf(items, n - 1, depth), [depth], Below(items[n - 1], depth);
      NodesShift(items, n - 1, depth, lift);
      BelowShift(items[n - 1], depth, lift);
      RaiseOne(depth, lift);
      RaiseJoin(before, one, lift);
      RaiseJoin(before + one, below, lift);
    } else {
      RaiseNone(lift);
    }
  }

  lemma {:induction false} RaiseNone(lift: nat)
    ensures Raise([], lift) == []
  {
  }

  lemma {:induction false} BelowShift(m: Message, depth: nat, lift: nat)
    ensures Below(m, depth + lift) == Raise(Below(m, depth), lift)
    decreases m, 1
  {
    FieldsShift(m.fields, |m.fields|, depth, lift);
  }

  lemma {:induction false} FieldsShift(fields: seq<Field>, n: nat, depth: nat, lift: nat)
    requires n <= |fields|
    ensures FieldsBelow(fields, n, depth + lift) == Raise(FieldsBelow(fields, n, depth), lift)
    decreases fields, n
  {
    hide FieldBelow, Raise;
    if n > 0 {
      FieldsShift(fields, n - 1, depth, lift);
      FieldShift(fields[n - 1], depth, lift);
      RaiseJoin(FieldsBelow(fields, n - 1, depth), FieldBelow(fields[n - 1], depth), lift);
    } else {
      RaiseNone(lift);
    }
  }

  lemma {:induction false} FieldShift(f: Field, depth: nat, lift: nat)
    ensures FieldBelow(f, depth + lift) == Raise(FieldBelow(f, depth), lift)
    decreases f, 1
  {
    hide NodesOf, EntriesBelow, Below, Raise;
    RaiseNone(lift);
    match f.content
    case Repeated(Messages(items)) => NodesShift(items, |items|, depth + 1, lift);
    case Mapped(entries) => EntriesShift(entries, |entries|, depth, lift);
    case Single(Some(m)) => BelowShift(m, depth, lift);
    case _ =>
  }

  lemma {:induction false} EntriesShift(entries: seq<Entry>, n: nat, depth: nat, lift: nat)
    requires n <= |entries|
    ensures EntriesBelow(entries, n, depth + lift) == Raise(EntriesBelow(entries, n, depth), lift)
    decreases entries, n
  {
    hide Below, Raise;
    RaiseNone(lift);
    if n > 0 {
      EntriesShift(entries, n - 1, depth, lift);
      RaiseJoin(EntriesBelow(entries, n - 1, depth), ValueBelow(entries[n - 1], depth), lift);
      if entries[n - 1].value.Some? {
        BelowShift(entries[n - 1].value.value, depth, lift);
      }
    }
  }

  // ----- a nested list is smaller -----

  /** A repeated message whose nodes are among `s`, which is counted below `depth`: its own depth begins there. */
  ghost predicate Fits(list: List, s: seq<nat>, depth: nat) {
    list.Messages? && list.items != [] ==> Count(list.items) <= |s| && Depth(list.items) + depth <= Max(s)
  }

  ghost predicate AllFit(found: seq<Found>, s: seq<nat>, depth: nat) {
    forall k :: 0 <= k < |found| ==> Fits(found[k].list, s, depth)
  }

  lemma {:induction false} FitJoin(f1: seq<Found>, s1: seq<nat>, f2: seq<Found>, s2: seq<nat>, depth: nat)
    requires AllFit(f1, s1, depth) && AllFit(f2, s2, depth)
    ensures AllFit(f1 + f2, s1 + s2, depth)
  {
    hide Count, Depth, Max;
    MaxJoin(s1, s2);
    forall k | 0 <= k < |f1 + f2| ensures Fits((f1 + f2)[k].list, s1 + s2, depth) {
      if k < |f1| {
        assert Fits(f1[k].list, s1, depth);
      } else {
        assert Fits(f2[k - |f1|].list, s2, depth);
      }
    }
  }

  lemma {:induction false} FitShallower(found: seq<Found>, s: seq<nat>, depth: nat, above: nat)
    requires AllFit(found, s, depth) && above <= depth
    ensures AllFit(found, s, above)
  {
    hide Count, Depth, Max;
    forall k | 0 <= k < |found| ensures Fits(found[k].list, s, above) {
      assert Fits(found[k].list, s, depth);
    }
  }

  lemma {:induction false} MessageFits(m: Message, path: string, level: nat, depth: nat)
    ensures AllFit(ListsIn(m, path, level), Below(m, depth), depth)
    decreases m, 1
  {
    FieldsFit(m.fields, |m.fields|, path, level, depth);
  }

  lemma {:induction false} FieldsFit(fields: seq<Field>, n: nat, path: string, level: nat, depth: nat)
    requires n <= |fields|
    ensures AllFit(FieldsLists(fields, n, path, level), FieldsBelow(fields, n, depth), depth)
    decreases fields, n
  {
    hide FieldLists, FieldBelow, Fits;
    if n > 0 {
      FieldsFit(fields, n - 1, path, level, depth);
      FieldFits(fields[n - 1], path, level, depth);
      FitJoin(FieldsLists(fields, n - 1, path, level), FieldsBelow(fields, n - 1, depth),
              FieldLists(fields[n - 1], path, level), FieldBelow(fields[n - 1], depth), depth);
    }
  }

  lemma {:induction false} FieldFits(f: Field, parent: string, level: nat, depth: nat)
    ensures AllFit(FieldLists(f, parent, level), FieldBelow(f, depth), depth)
    decreases f, 1
  {
    hide ListsIn, ItemsLists, EntriesLists, NodesOf, EntriesBelow, Below, Max, Count, Depth;
    var path := JoinPath(parent, f.jsonName);
    match f.content
    case Repeated(Messages(items)) => ListFits(items, path, level, depth);
    case Mapped(entries) => EntriesFit(entries, |entries|, path, level, depth);
    case Single(Some(m)) => MessageFits(m, path, level, depth);
    case _ =>
  }

  lemma {:induction false} ListFits(items: seq<Message>, path: string, level: nat, depth: nat)
    ensures AllFit([Found(path, Messages(items), level)] + ItemsLists(items, |items|, path, level + 1),
                   NodesOf(items, |items|, depth + 1), depth)
    decreases items, |items| + 1
  {
    hide ItemsLists, Max;
    var nodes := NodesOf(items, |items|, 1);
    ItemsFit(items, |items|, path, level + 1, depth + 1);
    FitShallower(ItemsLists(items, |items|, path, level + 1), NodesOf(items, |items|, depth + 1), depth + 1, depth);
    NodesShift(items, |items|, 1, depth);
    if nodes != [] {
      MaxRaise(nodes, depth);
    }
    assert Fits(Messages(items), NodesOf(items, |items|, depth + 1), depth);
  }

  lemma {:induction false} ItemsFit(items: seq<Message>, n: nat, path: string, level: nat, depth: nat)
    requires n <= |items|
    ensures AllFit(ItemsLists(items, n, path, level), NodesOf(items, n, depth), depth)
    decreases items, n
  {
    hide ListsIn, Below, Fits;
    if n > 0 {
      var before, below := NodesOf(items, n - 1, depth), Below(items[n - 1], depth);
      ItemsFit(items, n - 1, path, level, depth);
      MessageFits(items[n - 1], path, level, depth);
      FitJoin(ItemsLists(items, n - 1, path, level), before, [], [depth], depth);
      assert ItemsLists(items, n - 1, path, level) + [] == ItemsLists(items, n - 1, path, level);
      FitJoin(ItemsLists(items, n - 1, path, level), before + [depth], ListsIn(items[n - 1], path, level), below,
          depth);
    }
  }

  lemma {:induction false} EntriesFit(entries: seq<Entry>, n: nat, path: string, level: nat, depth: nat)
    requires n <= |entries|
    ensures AllFit(EntriesLists(entries, n, path, level), EntriesBelow(entries, n, depth), depth)
    decreases entries, n
  {
    hide ListsIn, Below, Fits;
    if n > 0 {
      var e := entries[n - 1];
      EntriesFit(entries, n - 1, path, level, depth);
      if e.value.Some? {
        MessageFits(e.value.value, JoinPath(path, e.key), level, depth);
      }
      FitJoin(EntriesLists(entries, n - 1, path, level), EntriesBelow(entries, n - 1, depth),
              ValueLists(e, path, level), ValueBelow(e, depth), depth);
    }
  }

  // ----- a tree is only ever reported at an outermost list -----

  /** Whenever a nested list is sized as a tree, an outermost one before it is. */
  ghost predicate OuterFirst(s: seq<Found>) {
    forall k :: 0 <= k < |s| && s[k].level > 0 && TreeSized(s[k].list) ==> OuterTreeIn(s[..k])
  }

  ghost predicate OuterTreeIn(s: seq<Found>) {
    exists j :: 0 <= j < |s| && s[j].level == 0 && TreeSized(s[j].list)
  }

  lemma {:induction false} OuterFirstJoin(s: seq<Found>, t: seq<Found>)
    requires OuterFirst(s) && OuterFirst(t)
    ensures OuterFirst(s + t)
  {
    hide TreeSized;
    var both := s + t;
    forall k | 0 <= k < |both| && both[k].level > 0 && TreeSized(both[k].list) ensures OuterTreeIn(both[..k]) {
      if k < |s| {
        assert both[..k] == s[..k];
      } else {
        var i := k - |s|;
        assert t[i] == both[k] && both[..k] == s + t[..i];
        var j :| 0 <= j < i && t[..i][j].level == 0 && TreeSized(t[..i][j].list);
        assert both[..k][|s| + j] == t[..i][j];
      }
    }
  }

  lemma {:induction false} MessageOuterFirst(m: Message, path: string)
    ensures OuterFirst(ListsIn(m, path, 0))
    decreases m, 1
  {
    FieldsOuterFirst(m.fields, |m.fields|, path);
  }

  lemma {:induction false} FieldsOuterFirst(fields: seq<Field>, n: nat, path: string)
    requires n <= |fields|
    ensures OuterFirst(FieldsLists(fields, n, path, 0))
    decreases fields, n
  {
    hide FieldLists;
    if n > 0 {
      FieldsOuterFirst(fields, n - 1, path);
      FieldOuterFirst(fields[n - 1], path);
      hide OuterFirst;
      OuterFirstJoin(FieldsLists(fields, n - 1, path, 0), FieldLists(fields[n - 1], path, 0));
    }
  }

  lemma {:induction false} FieldOuterFirst(f: Field, parent: string)
    ensures OuterFirst(FieldLists(f, parent, 0))
    decreases f, 1
  {
    hide ListsIn, ItemsLists, EntriesLists, TreeSized;
    var path := JoinPath(parent, f.jsonName);
    match f.content
    case Repeated(Messages(items)) => ListOuterFirst(items, path);
    case Mapped(entries) => EntriesOuterFirst(entries, |entries|, path);
    case Single(Some(m)) => MessageOuterFirst(m, path);
    case _ =>
  }

  lemma {:induction false} ListOuterFirst(items: seq<Message>, path: string)
    ensures OuterFirst([Found(path, Messages(items), 0)] + ItemsLists(items, |items|, path, 1))
  {
    hide ItemsLists, Max, NodesOf;
    var outer, inner := Found(path, Messages(items), 0), ItemsLists(items, |items|, path, 1);
    var s := [outer] + inner;
    ItemsFit(items, |items|, path, 1, 1);
    forall k | 0 <= k < |s| && s[k].level > 0 && TreeSized(s[k].list) ensures OuterTreeIn(s[..k]) {
      assert Fits(inner[k - 1].list, NodesOf(items, |items|, 1), 1);
      if s[k].list.items == [] {
        NoNodes(s[k].list.items, 1);
        MaxNone();
      }
      assert s[..k][0] == outer;
    }
  }

  lemma {:induction false} EntriesOuterFirst(entries: seq<Entry>, n: nat, path: string)
    requires n <= |entries|
    ensures OuterFirst(EntriesLists(entries, n, path, 0))
    decreases entries, n
  {
    hide ListsIn, TreeSized;
    if n > 0 {
      var e := entries[n - 1];
      EntriesOuterFirst(entries, n - 1, path);
      if e.value.Some? {
        MessageOuterFirst(e.value.value, JoinPath(path, e.key));
      }
      hide OuterFirst;
      OuterFirstJoin(EntriesLists(entries, n - 1, path, 0), ValueLists(e, path, 0));
    }
  }

  lemma {:induction false} NoTreeAmongSmall(s: seq<Found>)
    requires NoneLarge(s)
    ensures !OuterTreeIn(s)
  {
    hide TreeSized;
  }

  /** The search of a response reports a tree only for a list that lies in no other repeated message. */
  lemma {:induction false} TreeHitIsOutermost(m: Message, hit: Hit)
    requires ReportsFirst(ListsIn(m, "", 0), Some(hit)) && hit.kind.TreeKind?
    ensures exists found ::
              found in ListsIn(m, "", 0) && found.level == 0 && TooLarge(found.list) && hit == HitOf(found)
  {
    hide TreeSized, ListsIn, Count, Depth;
    var s := ListsIn(m, "", 0);
    MessageOuterFirst(m, "");
    var k :| 0 <= k < |s| && TooLarge(s[k].list) && hit == HitOf(s[k]) && NoneLarge(s[..k]);
    NoTreeAmongSmall(s[..k]);
    assert s[k] in s;
  }

  /** What an accepted list holds is within the tree limits too, strictly so in depth. */
  lemma {:induction false} NestedInAcceptedIsSmaller(items: seq<Message>, path: string, level: nat, found: Found)
    requires found in ItemsLists(items, |items|, path, level) && found.list.Messages? && found.list.items != []
    ensures Count(found.list.items) <= Count(items) && Depth(found.list.items) < Depth(items)
  {
    hide ItemsLists, Count, Max, NodesOf;
    ItemsFit(items, |items|, path, level, 1);
    var k :| 0 <= k < |ItemsLists(items, |items|, path, level)| && ItemsLists(items, |items|, path, level)[k] == found;
    assert Fits(found.list, NodesOf(items, |items|, 1), 1);
    CountIs(items);
  }

  lemma {:induction false} CountIs(items: seq<Message>)
    ensures Count(items) == |NodesOf(items, |items|, 1)|
  {
  }

  // ----- what the listing lists -----

  /** One step into a response: a field and, in a list or a map, the position of an element. */
  datatype Step = Step(field: nat, element: nat)

  type Route = seq<Step>

  /** Where a step leads: the message, the names it passes, and whether it enters an item of a repeated message. */
  datatype Visit = Visit(message: Message, names: seq<string>, inItem: bool)

  function Enter(m: Message, s: Step): (r: Option<Visit>)
    ensures r.Some? ==> r.value.message < m
  {
    if s.field >= |m.fields| then None
    else
      var f := m.fields[s.field];
      match f.content
      case Repeated(Messages(items)) =>
        if s.element < |items| then Some(Visit(items[s.element], [f.jsonName], true)) else None
      case Mapped(entries) =>
        if s.element < |entries| && entries[s.element].value.Some? then
          Some(Visit(entries[s.element].value.value, [f.jsonName, entries[s.element].key], false))
        else None
      case Single(Some(k)) => if s.element == 0 then Some(Visit(k, [f.jsonName], false)) else None
      case _ => None
  }

  /** The list at the end of a route, the names on the way to it and the number of items it lies in. */
  datatype Spot = Spot(names: seq<string>, list: List, level: nat)

  function SpotAt(m: Message, route: Route): Option<Spot>
    decreases |route|
  {
    if route == [] then None
    else if |route| == 1 then
      if route[0].field < |m.fields| && route[0].element == 0 && m.fields[route[0].field].content.Repeated? then
        Some(Spot([m.fields[route[0].field].jsonName], m.fields[route[0].field].content.list, 0))
      else None
    else
      match Enter(m, route[0])
      case None => None
      case Some(v) =>
        match SpotAt(v.message, route[1..])
        case None => None
        case Some(spot) => Some(Spot(v.names + spot.names, spot.list, spot.level + if v.inItem then 1 else 0))
  }

  /** Document order: a list comes before what lies in it, and otherwise field by field, element by element. */
  predicate RouteBefore(r: Route, s: Route)
    decreases |r|
  {
    s != [] &&
    (r == [] || r[0].field < s[0].field || (r[0].field == s[0].field && r[0].element < s[0].element)
     || (r[0] == s[0] && RouteBefore(r[1..], s[1..])))
  }

  ghost predicate Ascending(routes: seq<Route>) {
    forall j, k :: 0 <= j < k < |routes| ==> RouteBefore(routes[j], routes[k])
  }

  /** Names with a dot between each two. */
  function Dotted(names: seq<string>): string {
    if names == [] then "" else if |names| == 1 then names[0] else names[0] + "." + Dotted(names[1..])
  }

  // The routes of the listing, in its order.

  ghost function Routes(m: Message): seq<Route>
    decreases m, 1
  {
    FieldsRoutes(m.fields, |m.fields|)
  }

  ghost function FieldsRoutes(fields: seq<Field>, n: nat): seq<Route>
    requires n <= |fields|
    decreases fields, n
  {
    if n == 0 then [] else FieldsRoutes(fields, n - 1) + FieldRoutes(fields[n - 1], n - 1)
  }

  ghost function FieldRoutes(f: Field, i: nat): seq<Route>
    decreases f, 1
  {
    match f.content
    case Repeated(Scalars(_)) => [[Step(i, 0)]]
    case Repeated(Messages(items)) => [[Step(i, 0)]] + ItemsRoutes(items, |items|, i)
    case Mapped(entries) => EntriesRoutes(entries, |entries|, i)
    case Single(Some(m)) => Prefixed(Step(i, 0), Routes(m))
    case _ => []
  }

  ghost function ItemsRoutes(items: seq<Message>, n: nat, i: nat): seq<Route>
    requires n <= |items|
    decreases items, n
  {
    if n == 0 then [] else ItemsRoutes(items, n - 1, i) + Prefixed(Step(i, n - 1), Routes(items[n - 1]))
  }

  ghost function EntriesRoutes(entries: seq<Entry>, n: nat, i: nat): seq<Route>
    requires n <= |entries|
    decreases entries, n
  {
    if n == 0 then []
    else
      EntriesRoutes(entries, n - 1, i) +
      if entries[n - 1].value.None? then [] else Prefixed(Step(i, n - 1), Routes(entries[n - 1].value.value))
  }

  ghost function Prefixed(s: Step, routes: seq<Route>): seq<Route> {
    seq(|routes|, k requires 0 <= k < |routes| => [s] + routes[k])
  }

  /** The path below `parent`. */
  function PathBelow(parent: string, names: seq<string>): string
    decreases |names|
  {
    if names == [] then parent else PathBelow(JoinPath(parent, names[0]), names[1..])
  }

  lemma {:induction false} PathBelowJoin(parent: string, a: seq<string>, b: seq<string>)
    ensures PathBelow(parent, a + b) == PathBelow(PathBelow(parent, a), b)
    decreases |a|
  {
    if a == [] {
      assert a + b == b;
    } else {
      assert (a + b)[1..] == a[1..] + b;
      PathBelowJoin(JoinPath(parent, a[0]), a[1..], b);
    }
  }

  /** Below a parent with a name, and at the root below a first name, the path is the names with dots between. */
  lemma {:induction false} PathIsDotted(parent: string, names: seq<string>)
    requires names != []
    ensures parent != "" ==> PathBelow(parent, names) == parent + "." + Dotted(names)
    ensures parent == "" && names[0] != "" ==> PathBelow(parent, names) == Dotted(names)
    decreases |names|
  {
    if |names| == 1 {
      assert PathBelow(JoinPath(parent, names[0]), names[1..]) == JoinPath(parent, names[0]);
    } else {
      PathIsDotted(JoinPath(parent, names[0]), names[1..]);
      assert parent + "." + (names[0] + "." + Dotted(names[1..])) ==
             parent + "." + names[0] + "." + Dotted(names[1..]);
    }
  }

  /** The route leads to the list that was found there. */
  ghost predicate LeadsTo(m: Message, path: string, level: nat, route: Route, found: Found) {
    && SpotAt(m, route).Some?
    && var spot := SpotAt(m, route).value;
       found == Found(PathBelow(path, spot.names), spot.list, level + spot.level)
  }

  ghost predicate AllLead(m: Message, path: string, level: nat, routes: seq<Route>, found: seq<Found>) {
    |routes| == |found| && forall k :: 0 <= k < |routes| ==> LeadsTo(m, path, level, routes[k], found[k])
  }

  lemma {:induction false} LeadJoin(m: Message, path: string, level: nat, r1: seq<Route>, f1: seq<Found>,
                                    r2: seq<Route>, f2: seq<Found>)
    requires AllLead(m, path, level, r1, f1) && AllLead(m, path, level, r2, f2)
    ensures AllLead(m, path, level, r1 + r2, f1 + f2)
  {
    hide LeadsTo;
  }

  lemma {:induction false} LeadOne(m: Message, path: string, level: nat, i: nat)
    requires i < |m.fields| && m.fields[i].content.Repeated?
    ensures AllLead(m, path, level, [[Step(i, 0)]],
                    [Found(JoinPath(path, m.fields[i].jsonName), m.fields[i].content.list, level)])
  {
    var names := [m.fields[i].jsonName];
    assert PathBelow(JoinPath(path, names[0]), names[1..]) == JoinPath(path, names[0]);
    assert SpotAt(m, [Step(i, 0)]) == Some(Spot(names, m.fields[i].content.list, 0));
  }

  /** What leads from a message leads, by one more step, from the one above it. */
  lemma {:induction false} LeadPrefixed(m: Message, path: string, level: nat, s: Step, routes: seq<Route>,
                                        found: seq<Found>)
    requires Enter(m, s).Some?
    requires var v := Enter(m, s).value;
             AllLead(v.message, PathBelow(path, v.names), level + (if v.inItem then 1 else 0), routes, found)
    ensures AllLead(m, path, level, Prefixed(s, routes), found)
  {
    var v := Enter(m, s).value;
    forall k | 0 <= k < |routes| ensures LeadsTo(m, path, level, [s] + routes[k], found[k]) {
      var route := [s] + routes[k];
      assert LeadsTo(v.message, PathBelow(path, v.names), level + (if v.inItem then 1 else 0), routes[k], found[k]);
      assert route[1..] == routes[k];
      PathBelowJoin(path, v.names, SpotAt(v.message, routes[k]).value.names);
    }
  }

  lemma {:induction false} MessageRouted(m: Message, path: string, level: nat)
    ensures AllLead(m, path, level, Routes(m), ListsIn(m, path, level))
    decreases m, 1
  {
    FieldsRouted(m, |m.fields|, path, level);
  }

  lemma {:induction false} FieldsRouted(m: Message, n: nat, path: string, level: nat)
    requires n <= |m.fields|
    ensures AllLead(m, path, level, FieldsRoutes(m.fields, n), FieldsLists(m.fields, n, path, level))
    decreases m, 0, n
  {
    hide FieldRoutes, FieldLists, LeadsTo;
    if n > 0 {
      FieldsRouted(m, n - 1, path, level);
      FieldRouted(m, n - 1, path, level);
      LeadJoin(m, path, level, FieldsRoutes(m.fields, n - 1), FieldsLists(m.fields, n - 1, path, level),
               FieldRoutes(m.fields[n - 1], n - 1), FieldLists(m.fields[n - 1], path, level));
    }
  }

  lemma {:induction false} OneName(path: string, name: string)
    ensures PathBelow(path, [name]) == JoinPath(path, name)
  {
    assert [name][1..] == [];
  }

  lemma {:induction false} FieldRouted(m: Message, i: nat, path: string, level: nat)
    requires i < |m.fields|
    ensures AllLead(m, path, level, FieldRoutes(m.fields[i], i), FieldLists(m.fields[i], path, level))
    decreases m, 0, i
  {
    hide Routes, ItemsRoutes, EntriesRoutes, ListsIn, ItemsLists, EntriesLists, LeadsTo, PathBelow, SpotAt;
    var f := m.fields[i];
    OneName(path, f.jsonName);
    match f.content
    case Repeated(Scalars(_)) => LeadOne(m, path, level, i);
    case Repeated(Messages(items)) =>
      LeadOne(m, path, level, i);
      ItemsRouted(m, i, items, |items|, path, level);
      LeadJoin(m, path, level, [[Step(i, 0)]], [Found(JoinPath(path, f.jsonName), f.content.list, level)],
               ItemsRoutes(items, |items|, i), ItemsLists(items, |items|, JoinPath(path, f.jsonName), level + 1));
    case Mapped(entries) => EntriesRouted(m, i, entries, |entries|, path, level);
    case Single(Some(k)) =>
      MessageRouted(k, JoinPath(path, f.jsonName), level);
      LeadPrefixed(m, path, level, Step(i, 0), Routes(k), ListsIn(k, JoinPath(path, f.jsonName), level));
    case _ =>
  }

  lemma {:induction false} ItemsRouted(m: Message, i: nat, items: seq<Message>, n: nat, path: string, level: nat)
    requires i < |m.fields| && m.fields[i].content == Repeated(Messages(items)) && n <= |items|
    ensures AllLead(m, path, level, ItemsRoutes(items, n, i),
                    ItemsLists(items, n, JoinPath(path, m.fields[i].jsonName), level + 1))
    decreases m.fields[i], n
  {
    hide Routes, ListsIn, LeadsTo, PathBelow, SpotAt;
    if n > 0 {
      var below := JoinPath(path, m.fields[i].jsonName);
      OneName(path, m.fields[i].jsonName);
      ItemsRouted(m, i, items, n - 1, path, level);
      MessageRouted(items[n - 1], below, level + 1);
      LeadPrefixed(m, path, level, Step(i, n - 1), Routes(items[n - 1]), ListsIn(items[n - 1], below, level + 1));
      LeadJoin(m, path, level, ItemsRoutes(items, n - 1, i), ItemsLists(items, n - 1, below, level + 1),
               Prefixed(Step(i, n - 1), Routes(items[n - 1])), ListsIn(items[n - 1], below, level + 1));
    }
  }

  lemma {:induction false} EntriesRouted(m: Message, i: nat, entries: seq<Entry>, n: nat, path: string, level: nat)
    requires i < |m.fields| && m.fields[i].content == Mapped(entries) && n <= |entries|
    ensures AllLead(m, path, level, EntriesRoutes(entries, n, i),
                    EntriesLists(entries, n, JoinPath(path, m.fields[i].jsonName), level))
    decreases m.fields[i], n
  {
    hide Routes, ListsIn, LeadsTo, PathBelow, SpotAt, JoinPath;
    if n > 0 {
      var name, e := m.fields[i].jsonName, entries[n - 1];
      var below := JoinPath(path, name);
      EntriesRouted(m, i, entries, n - 1, path, level);
      if e.value.Some? {
        TwoNames(path, name, e.key);
        MessageRouted(e.value.value, JoinPath(below, e.key), level);
        LeadPrefixed(m, path, level, Step(i, n - 1), Routes(e.value.value),
                     ListsIn(e.value.value, JoinPath(below, e.key), level));
        LeadJoin(m, path, level, EntriesRoutes(entries, n - 1, i), EntriesLists(entries, n - 1, below, level),
                 Prefixed(Step(i, n - 1), Routes(e.value.value)), ValueLists(e, below, level));
      } else {
        assert EntriesRoutes(entries, n, i) == EntriesRoutes(entries, n - 1, i);
        assert EntriesLists(entries, n, below, level) == EntriesLists(entries, n - 1, below, level);
      }
    }
  }

  lemma {:induction false} TwoNames(path: string, a: string, b: string)
    ensures PathBelow(path, [a, b]) == JoinPath(JoinPath(path, a), b)
  {
    assert [a, b][1..] == [b];
    OneName(JoinPath(path, a), b);
  }

  lemma {:induction false} AscendingJoin(a: seq<Route>, b: seq<Route>)
    requires Ascending(a) && Ascending(b)
    requires forall r, s :: r in a && s in b ==> RouteBefore(r, s)
    ensures Ascending(a + b)
  {
    hide RouteBefore;
    forall j, k | 0 <= j < k < |a + b| ensures RouteBefore((a + b)[j], (a + b)[k]) {
      if j < |a| <= k {
        assert a[j] in a && b[k - |a|] in b;
      }
    }
  }

  lemma {:induction false} AscendingPrefixed(s: Step, routes: seq<Route>)
    requires Ascending(routes)
    ensures Ascending(Prefixed(s, routes))
  {
    forall j, k | 0 <= j < k < |routes| ensures RouteBefore([s] + routes[j], [s] + routes[k]) {
      assert ([s] + routes[j])[1..] == routes[j] && ([s] + routes[k])[1..] == routes[k];
    }
  }

  lemma {:induction false} PrefixedAre(s: Step, routes: seq<Route>)
    requires forall r :: r in routes ==> r != []
    ensures forall r: Route :: r in Prefixed(s, routes) ==> |r| > 1 && r[0] == s
  {
    forall k | 0 <= k < |routes| ensures |Prefixed(s, routes)[k]| > 1 {
      assert routes[k] in routes;
    }
  }

  lemma {:induction false} MessageAscends(m: Message)
    ensures Ascending(Routes(m)) && forall r :: r in Routes(m) ==> r != []
    decreases m, 1
  {
    hide FieldsRoutes;
    FieldsAscend(m.fields, |m.fields|);
  }

  lemma {:induction false} FieldsAscend(fields: seq<Field>, n: nat)
    requires n <= |fields|
    ensures Ascending(FieldsRoutes(fields, n))
    ensures forall r: Route :: r in FieldsRoutes(fields, n) ==> r != [] && r[0].field < n
    decreases fields, n
  {
    hide FieldRoutes, Ascending;
    if n > 0 {
      FieldsAscend(fields, n - 1);
      FieldAscends(fields[n - 1], n - 1);
      AscendingJoin(FieldsRoutes(fields, n - 1), FieldRoutes(fields[n - 1], n - 1));
    } else {
      NoneAscend();
    }
  }

  lemma {:induction false} NoneAscend()
    ensures Ascending([])
  {
  }

  lemma {:induction false} FieldAscends(f: Field, i: nat)
    ensures Ascending(FieldRoutes(f, i)) && forall r: Route :: r in FieldRoutes(f, i) ==> r != [] && r[0].field == i
    decreases f, 1
  {
    hide Routes, ItemsRoutes, EntriesRoutes;
    match f.content
    case Repeated(Messages(items)) =>
      ItemsAscend(items, |items|, i);
      forall r | r in ItemsRoutes(items, |items|, i) ensures RouteBefore([Step(i, 0)], r) {
        assert r[0] == Step(i, 0) ==> RouteBefore([], r[1..]);
      }
      AscendingJoin([[Step(i, 0)]], ItemsRoutes(items, |items|, i));
    case Mapped(entries) => EntriesAscend(entries, |entries|, i);
    case Single(Some(m)) =>
      MessageAscends(m);
      AscendingPrefixed(Step(i, 0), Routes(m));
    case _ =>
  }

  lemma {:induction false} ItemsAscend(items: seq<Message>, n: nat, i: nat)
    requires n <= |items|
    ensures Ascending(ItemsRoutes(items, n, i))
    ensures forall r: Route :: r in ItemsRoutes(items, n, i) ==> |r| > 1 && r[0].field == i && r[0].element < n
    decreases items, n
  {
    hide Routes, Ascending;
    if n > 0 {
      ItemsAscend(items, n - 1, i);
      MessageAscends(items[n - 1]);
      AscendingPrefixed(Step(i, n - 1), Routes(items[n - 1]));
      PrefixedAre(Step(i, n - 1), Routes(items[n - 1]));
      AscendingJoin(ItemsRoutes(items, n - 1, i), Prefixed(Step(i, n - 1), Routes(items[n - 1])));
    } else {
      NoneAscend();
    }
  }

  lemma {:induction false} EntriesAscend(entries: seq<Entry>, n: nat, i: nat)
    requires n <= |entries|
    ensures Ascending(EntriesRoutes(entries, n, i))
    ensures forall r: Route :: r in EntriesRoutes(entries, n, i) ==> r != [] && r[0].field == i && r[0].element < n
    decreases entries, n
  {
    hide Routes, Ascending;
    if n > 0 {
      EntriesAscend(entries, n - 1, i);
      if entries[n - 1].value.Some? {
        MessageAscends(entries[n - 1].value.value);
        AscendingPrefixed(Step(i, n - 1), Routes(entries[n - 1].value.value));
        AscendingJoin(EntriesRoutes(entries, n - 1, i), Prefixed(Step(i, n - 1), Routes(entries[n - 1].value.value)));
      } else {
        assert EntriesRoutes(entries, n, i) == EntriesRoutes(entries, n - 1, i);
      }
    } else {
      NoneAscend();
    }
  }

  /** No list is left out. */
  lemma {:induction false} EveryRouteIsListed(m: Message, route: Route)
    requires SpotAt(m, route).Some?
    ensures route in Routes(m)
    decreases |route|
  {
    hide FieldsRoutes, FieldRoutes, Routes;
    var s, rest := route[0], route[1..];
    assert route == [s] + rest;
    if |route| == 1 {
      assert route == [Step(s.field, 0)];
      OwnRoute(m.fields[s.field], s.field);
    } else {
      EveryRouteIsListed(Enter(m, s).value.message, rest);
      RouteThrough(m, s, rest);
    }
    FieldWithinRoutes(m.fields, |m.fields|, s.field, route);
    RoutesAre(m);
  }

  lemma {:induction false} RoutesAre(m: Message)
    ensures Routes(m) == FieldsRoutes(m.fields, |m.fields|)
  {
  }

  lemma {:induction false} OwnRoute(f: Field, i: nat)
    requires f.content.Repeated?
    ensures [Step(i, 0)] in FieldRoutes(f, i)
  {
    hide ItemsRoutes;
    assert FieldRoutes(f, i)[0] == [Step(i, 0)];
  }

  lemma {:induction false} RouteThrough(m: Message, s: Step, rest: Route)
    requires Enter(m, s).Some? && rest in Routes(Enter(m, s).value.message)
    ensures [s] + rest in FieldRoutes(m.fields[s.field], s.field)
  {
    hide Routes, ItemsRoutes, EntriesRoutes;
    var f := m.fields[s.field];
    var routes := Routes(Enter(m, s).value.message);
    var k :| 0 <= k < |routes| && routes[k] == rest;
    assert Prefixed(s, routes)[k] == [s] + rest;
    match f.content
    case Repeated(Messages(items)) => ItemWithinRoutes(items, |items|, s, [s] + rest);
    case Mapped(entries) => EntryWithinRoutes(entries, |entries|, s, [s] + rest);
    case Single(Some(k)) =>
  }

  lemma {:induction false} FieldWithinRoutes(fields: seq<Field>, n: nat, i: nat, route: Route)
    requires i < n <= |fields| && route in FieldRoutes(fields[i], i)
    ensures route in FieldsRoutes(fields, n)
  {
    hide FieldRoutes;
    if i < n - 1 {
      FieldWithinRoutes(fields, n - 1, i, route);
    }
  }

  lemma {:induction false} ItemWithinRoutes(items: seq<Message>, n: nat, s: Step, route: Route)
    requires s.element < n <= |items| && route in Prefixed(s, Routes(items[s.element]))
    ensures route in ItemsRoutes(items, n, s.field)
  {
    hide Routes, Prefixed;
    if s.element < n - 1 {
      ItemWithinRoutes(items, n - 1, s, route);
    }
  }

  lemma {:induction false} EntryWithinRoutes(entries: seq<Entry>, n: nat, s: Step, route: Route)
    requires s.element < n <= |entries| && entries[s.element].value.Some?
    requires route in Prefixed(s, Routes(entries[s.element].value.value))
    ensures route in EntriesRoutes(entries, n, s.field)
  {
    hide Routes, Prefixed;
    if s.element < n - 1 {
      EntryWithinRoutes(entries, n - 1, s, route);
    }
  }

  /** The listing of a response is that of its routes: every list once, in document order, with the names on the way to
      it for a path and the number of items it lies in. */
  lemma {:induction false} ListingIsByRoute(m: Message) returns (routes: seq<Route>)
    ensures |routes| == |ListsIn(m, "", 0)| && Ascending(routes)
    ensures forall route :: SpotAt(m, route).Some? <==> route in routes
    ensures forall k :: 0 <= k < |routes| ==>
              var spot, found := SpotAt(m, routes[k]).value, ListsIn(m, "", 0)[k];
              && found.list == spot.list && found.level == spot.level
              && spot.names != [] && (spot.names[0] != "" ==> found.path == Dotted(spot.names))
  {
    hide Routes, ListsIn, Ascending;
    routes := Routes(m);
    MessageRouted(m, "", 0);
    MessageAscends(m);
    forall route | SpotAt(m, route).Some? ensures route in routes {
      EveryRouteIsListed(m, route);
    }
    forall k | 0 <= k < |routes|
      ensures SpotAt(m, routes[k]).Some? && SpotAt(m, routes[k]).value.names != []
      ensures var spot, found := SpotAt(m, routes[k]).value, ListsIn(m, "", 0)[k];
        && found.list == spot.list && found.level == spot.level
        && (spot.names[0] != "" ==> found.path == Dotted(spot.names))
    {
      assert LeadsTo(m, "", 0, routes[k], ListsIn(m, "", 0)[k]);
      SpotHasName(m, routes[k]);
      PathIsDotted("", SpotAt(m, routes[k]).value.names);
    }
  }

  lemma {:induction false} SpotHasName(m: Message, route: Route)
    requires SpotAt(m, route).Some?
    ensures SpotAt(m, route).value.names != []
  {
  }

  ghost predicate AllSpotsSmall(m: Message) {
    forall route :: SpotAt(m, route).Some? ==> Small(SpotAt(m, route).value.list)
  }

  /** No more than 20 items of its own, 100 in and below it, and 5 deep. */
  ghost predicate Small(list: List) {
    match list
    case Scalars(n) => n <= 20
    case Messages(items) => |items| <= 20 && Count(items) <= 100 && Depth(items) <= 5
  }

  lemma {:induction false} SmallIff(list: List)
    ensures Small(list) <==> !TooLarge(list)
  {
    hide Count, Depth;
  }

  /** Nothing is reported just when every list that can be reached at all is within the limits. */
  lemma {:induction false} NothingReportedIffAllSmall(m: Message)
    ensures ReportsFirst(ListsIn(m, "", 0), None) <==> AllSpotsSmall(m)
  {
    hide ListsIn, TooLarge, Small, Ascending, SpotAt;
    var routes := ListingIsByRoute(m);
    var s := ListsIn(m, "", 0);
    if NoneLarge(s) {
      forall route | SpotAt(m, route).Some? ensures Small(SpotAt(m, route).value.list) {
        var k :| 0 <= k < |routes| && routes[k] == route;
        assert s[k] in s;
        SmallIff(s[k].list);
      }
    }
    if AllSpotsSmall(m) {
      forall found | found in s ensures !TooLarge(found.list) {
        var k :| 0 <= k < |s| && s[k] == found;
        assert routes[k] in routes;
        SmallIff(found.list);
      }
      assert NoneLarge(s);
    }
    NoneLargeIsNone(s);
  }

  /** What a hit says: a list has too many items of its own; a tree has not, but too many in it or too deep ones,
      counted over all the items in and below the list. */
  lemma {:induction false} HitSays(s: seq<Found>, hit: Hit) returns (k: nat)
    requires ReportsFirst(s, Some(hit))
    ensures k < |s| && hit.path == s[k].path && hit.topLevelCount == s[k].list.Size()
    ensures hit.kind.ListKind? ==> hit.topLevelCount == hit.totalNodeCount > 20 && hit.maxDepth == 1
    ensures hit.kind.TreeKind? ==>
              && hit.topLevelCount <= 20 && s[k].list.Messages?
              && hit.totalNodeCount == Count(s[k].list.items) && hit.maxDepth == Depth(s[k].list.items)
              && (hit.totalNodeCount > 100 || hit.maxDepth > 5)
  {
    hide Count, Depth;
    k :| k < |s| && TooLarge(s[k].list) && hit == HitOf(s[k]) && NoneLarge(s[..k]);
  }

  // ----- the statistics by the lists -----

  /** The items of the repeated messages among the lists. */
  ghost function ItemsIn(s: seq<Found>): nat {
    if s == [] then 0
    else
      var last := s[|s| - 1].list;
      ItemsIn(s[..|s| - 1]) + if last.Messages? then |last.items| else 0
  }

  /** One more than the level of the deepest of them that has items. */
  ghost function Deepest(s: seq<Found>): nat {
    if s == [] then 0
    else
      var last := s[|s| - 1];
      Larger(Deepest(s[..|s| - 1]), if last.list.Messages? && last.list.items != [] then last.level + 1 else 0)
  }

  /** The nodes `s` are the items of the lists. */
  ghost predicate CountedBy(s: seq<nat>, found: seq<Found>) {
    |s| == ItemsIn(found) && Max(s) == Deepest(found)
  }

  lemma {:induction false} ItemsInJoin(a: seq<Found>, b: seq<Found>)
    ensures ItemsIn(a + b) == ItemsIn(a) + ItemsIn(b)
    ensures Deepest(a + b) == Larger(Deepest(a), Deepest(b))
  {
    if b == [] {
      assert a + b == a;
    } else {
      assert (a + b)[..|a + b| - 1] == a + b[..|b| - 1];
      ItemsInJoin(a, b[..|b| - 1]);
    }
  }

  lemma {:induction false} CountedJoin(s1: seq<nat>, f1: seq<Found>, s2: seq<nat>, f2: seq<Found>)
    requires CountedBy(s1, f1) && CountedBy(s2, f2)
    ensures CountedBy(s1 + s2, f1 + f2)
  {
    hide Max, ItemsIn, Deepest;
    MaxJoin(s1, s2);
    ItemsInJoin(f1, f2);
  }

  lemma {:induction false} NothingCounted()
    ensures CountedBy([], [])
  {
  }

  lemma {:induction false} MessageCounted(m: Message, path: string, level: nat)
    ensures CountedBy(Below(m, level), ListsIn(m, path, level))
    decreases m, 1
  {
    FieldsCounted(m.fields, |m.fields|, path, level);
  }

  lemma {:induction false} FieldsCounted(fields: seq<Field>, n: nat, path: string, level: nat)
    requires n <= |fields|
    ensures CountedBy(FieldsBelow(fields, n, level), FieldsLists(fields, n, path, level))
    decreases fields, n
  {
    hide FieldBelow, FieldLists, CountedBy;
    NothingCounted();
    if n > 0 {
      FieldsCounted(fields, n - 1, path, level);
      FieldCounted(fields[n - 1], path, level);
      CountedJoin(FieldsBelow(fields, n - 1, level), FieldsLists(fields, n - 1, path, level),
                  FieldBelow(fields[n - 1], level), FieldLists(fields[n - 1], path, level));
    }
  }

  lemma {:induction false} FieldCounted(f: Field, parent: string, level: nat)
    ensures CountedBy(FieldBelow(f, level), FieldLists(f, parent, level))
    decreases f, 1
  {
    hide ListsIn, ItemsLists, EntriesLists, NodesOf, EntriesBelow, Below, CountedBy;
    var path := JoinPath(parent, f.jsonName);
    NothingCounted();
    match f.content
    case Repeated(Scalars(_)) => ScalarsCounted(Found(path, f.content.list, level));
    case Repeated(Messages(items)) => ListCounted(items, path, level);
    case Mapped(entries) => EntriesCounted(entries, |entries|, path, level);
    case Single(Some(m)) => MessageCounted(m, path, level);
    case _ =>
  }

  lemma {:induction false} ScalarsCounted(found: Found)
    requires found.list.Scalars?
    ensures CountedBy([], [found])
  {
    assert [found][..0] == [];
  }

  lemma {:induction false} OneCounted(found: Found)
    requires found.list.Messages?
    ensures ItemsIn([found]) == |found.list.items|
    ensures Deepest([found]) == if found.list.items == [] then 0 else found.level + 1
  {
    assert [found][..0] == [];
    NoItems();
  }

  /** A list of messages and all that lies in it: its items are one deeper than it is. */
  lemma {:induction false} ListCounted(items: seq<Message>, path: string, level: nat)
    ensures CountedBy(NodesOf(items, |items|, level + 1),
                      [Found(path, Messages(items), level)] + ItemsLists(items, |items|, path, level + 1))
    decreases items, |items| + 1
  {
    hide ItemsLists, Max;
    var own, inner := Found(path, Messages(items), level), ItemsLists(items, |items|, path, level + 1);
    ItemsCounted(items, |items|, path, level + 1);
    OneCounted(own);
    hide ItemsIn, Deepest;
    ItemsInJoin([own], inner);
  }

  lemma {:induction false} ItemsCounted(items: seq<Message>, n: nat, path: string, depth: nat)
    requires n <= |items|
    ensures |NodesOf(items, n, depth)| == n + ItemsIn(ItemsLists(items, n, path, depth))
    ensures Max(NodesOf(items, n, depth)) ==
            Larger(if n == 0 then 0 else depth, Deepest(ItemsLists(items, n, path, depth)))
    decreases items, n
  {
    hide ListsIn, Below, Max, ItemsIn, Deepest;
    if n == 0 {
      MaxNone();
      NothingCounted();
      NoItems();
    } else {
      var before, below := NodesOf(items, n - 1, depth), Below(items[n - 1], depth);
      ItemsCounted(items, n - 1, path, depth);
      MessageCounted(items[n - 1], path, depth);
      MaxOne(depth);
      MaxJoin(before, [depth]);
      MaxJoin(before + [depth], below);
      ItemsInJoin(ItemsLists(items, n - 1, path, depth), ListsIn(items[n - 1], path, depth));
    }
  }

  lemma {:induction false} NoItems()
    ensures ItemsIn([]) == 0 && Deepest([]) == 0
  {
  }

  lemma {:induction false} EntriesCounted(entries: seq<Entry>, n: nat, path: string, level: nat)
    requires n <= |entries|
    ensures CountedBy(EntriesBelow(entries, n, level), EntriesLists(entries, n, path, level))
    decreases entries, n
  {
    hide ListsIn, Below, CountedBy;
    NothingCounted();
    if n > 0 {
      var e := entries[n - 1];
      EntriesCounted(entries, n - 1, path, level);
      if e.value.Some? {
        MessageCounted(e.value.value, JoinPath(path, e.key), level);
      }
      CountedJoin(EntriesBelow(entries, n - 1, level), EntriesLists(entries, n - 1, path, level),
                  ValueBelow(e, level), ValueLists(e, path, level));
    }
  }

  /** The statistics of a list are those of the lists in it: its items and theirs, and the deepest nesting among those
      that have items. */
  lemma {:induction false} StatsAreOfLists(items: seq<Message>, path: string)
    ensures var lists := [Found(path, Messages(items), 0)] + ItemsLists(items, |items|, path, 1);
      Count(items) == ItemsIn(lists) && Depth(items) == Deepest(lists)
  {
    ListCounted(items, path, 0);
  }
}
