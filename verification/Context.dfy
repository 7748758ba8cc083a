/**
 The bounded prompt context: `compact` walks a JSON value depth first, spending one shared character budget and
 raising one shared flag, so that the order of evaluation decides what is kept.
 */
module Context {
  import opened Integers

  /**
   `Other` is a value JSON does not know, given by its text. `Marker` is the string "[TRUNCATED]" the walk inserts.
   */
  datatype Json =
    | Null
    | Bool(b: bool)
    | Number(n: real)
    | Str(s: string)
    | List(items: seq<Json>)
    | Dict(entries: seq<Entry>)
    | Other(text: string)
    | Marker

  datatype Entry = Entry(key: string, value: Json)

  datatype Budget = Budget(remaining: int, truncated: bool)

  const BUDGET: nat := 24_000
  const MAX_DEPTH: nat := 8
  const MAX_STRING: nat := 3_000
  const MAX_KEY: nat := 80
  const MAX_ENTRIES: nat := 40
  const MAX_ITEMS: nat := 100

  function CutKey(key: string): string {
    if |key| <= MAX_KEY then key else key[..MAX_KEY]
  }

  /** The place of a key, or the length when it is not there. */
  function IndexOfKey(entries: seq<Entry>, key: string): (i: nat)
    ensures i <= |entries| && (i < |entries| ==> entries[i].key == key)
  {
    if entries == [] || entries[0].key == key then 0 else 1 + IndexOfKey(entries[1..], key)
  }

  /** Assigning to a key of a dict keeps the place of a key that is there already. */
  function Put(entries: seq<Entry>, key: string, value: Json): seq<Entry> {
    var i := IndexOfKey(entries, key);
    if i < |entries| then entries[i := Entry(key, value)] else entries + [Entry(key, value)]
  }

  /** Where the last hundred items of a list begin. */
  function Newest(items: seq<Json>): nat {
    if |items| <= MAX_ITEMS then 0 else |items| - MAX_ITEMS
  }

  predicate Stop(depth: nat, st: Budget) {
    st.remaining <= 0 || depth > MAX_DEPTH
  }

  function CompactText(s: string, depth: nat, st: Budget): (Json, Budget) {
    if Stop(depth, st) then (Marker, st.(truncated := true))
    else
      var n := Min(|s|, Min(st.remaining, MAX_STRING));
      (Str(s[..n]), Budget(st.remaining - n, st.truncated || n < |s|))
  }

  function Compact(v: Json, depth: nat, st: Budget): (Json, Budget)
    decreases v, 0
  {
    if Stop(depth, st) then (Marker, st.(truncated := true))
    else
      match v
      case Str(s) => CompactText(s, depth, st)
      case Dict(entries) =>
        var n := Min(|entries|, MAX_ENTRIES);
        var (kept, st') := CompactEntries(entries, n, depth, st);
        (Dict(kept), st'.(truncated := st'.truncated || |kept| < |entries|))
      case List(items) =>
        var (kept, st') := CompactItems(items, |items| - Newest(items), depth, st);
        (List(kept), st'.(truncated := st'.truncated || |kept| < |items|))
      case Other(text) => CompactText(text, depth + 1, st)
      case _ => (v, st)
  }

  /** The first n of the newest items; an item is looked at only while budget is left. */
  function CompactItems(items: seq<Json>, n: nat, depth: nat, st: Budget): (seq<Json>, Budget)
    requires Newest(items) + n <= |items|
    decreases items, n
  {
    if n == 0 then ([], st)
    else
      var (kept, st1) := CompactItems(items, n - 1, depth, st);
      if st1.remaining > 0 then
        var (item, st2) := Compact(items[Newest(items) + n - 1], depth + 1, st1);
        (kept + [item], st2)
      else
        (kept, st1)
  }

  /** The first n entries, under their cut keys. */
  function CompactEntries(entries: seq<Entry>, n: nat, depth: nat, st: Budget): (seq<Entry>, Budget)
    requires n <= |entries|
    decreases entries, n
  {
    if n == 0 then ([], st)
    else
      var (kept, st1) := CompactEntries(entries, n - 1, depth, st);
      if st1.remaining > 0 then
        var (value, st2) := Compact(entries[n - 1].value, depth + 1, st1);
        (Put(kept, CutKey(entries[n - 1].key), value), st2)
      else
        (kept, st1)
  }

  /** The walk as it is written, over the two variables it shares. */
  class Compactor {
    var remaining: int
    var truncated: bool

    function State(): Budget
      reads this
    {
      Budget(remaining, truncated)
    }

    constructor ()
      ensures State() == Budget(BUDGET, false)
    {
      remaining := BUDGET;
      truncated := false;
    }

    method WalkText(s: string, depth: nat) returns (r: Json)
      modifies this
      ensures (r, State()) == CompactText(s, depth, old(State()))
    {
      if remaining <= 0 || depth > MAX_DEPTH {
        truncated := true;
        return Marker;
      }
      var result := s[..Min(|s|, Min(remaining, MAX_STRING))];
      truncated := truncated || |result| < |s|;
      remaining := remaining - |result|;
      return Str(result);
    }

    method Walk(v: Json, depth: nat) returns (r: Json)
      modifies this
      ensures (r, State()) == Compact(v, depth, old(State()))
      ensures old(remaining) >= 0 ==>
                && Cut(v, depth, old(remaining), r) && remaining == Left(old(remaining), Cost(v, depth))
                && (truncated <==> old(truncated) || !Whole(v, depth, old(remaining)))
      decreases v, 1
    {
      WalkMeans(v, depth, State());
      hide Cut, Cost, Whole;
      if remaining <= 0 || depth > MAX_DEPTH {
        truncated := true;
        return Marker;
      }
      match v {
        case Str(s) =>
          r := WalkText(s, depth);
        case Dict(entries) =>
          var mapping := WalkEntries(entries, depth);
          truncated := truncated || |mapping| < |entries|;
          r := Dict(mapping);
        case List(items) =>
          var kept := WalkItems(items, depth);
          truncated := truncated || |kept| < |items|;
          r := List(kept);
        case Other(text) =>
          r := WalkText(text, depth + 1);
        case _ =>
          r := v;
      }
    }

    method WalkEntries(entries: seq<Entry>, depth: nat) returns (mapping: seq<Entry>)
      modifies this
      ensures (mapping, State()) == CompactEntries(entries, Min(|entries|, MAX_ENTRIES), depth, old(State()))
      decreases entries, 0
    {
      hide Compact, Put;
      mapping := [];
      var n := 0;
      while n < Min(|entries|, MAX_ENTRIES)
        invariant 0 <= n <= Min(|entries|, MAX_ENTRIES)
        invariant (mapping, State()) == CompactEntries(entries, n, depth, old(State()))
      {
        if remaining > 0 {
          var value := Walk(entries[n].value, depth + 1);
          mapping := Put(mapping, CutKey(entries[n].key), value);
        }
        n := n + 1;
      }
    }

    method WalkItems(items: seq<Json>, depth: nat) returns (kept: seq<Json>)
      modifies this
      ensures (kept, State()) == CompactItems(items, |items| - Newest(items), depth, old(State()))
      decreases items, 0
    {
      hide Compact;
      kept := [];
      var n := 0;
      while n < |items| - Newest(items)
        invariant 0 <= n <= |items| - Newest(items)
        invariant (kept, State()) == CompactItems(items, n, depth, old(State()))
      {
        if remaining > 0 {
          var item := Walk(items[Newest(items) + n], depth + 1);
          kept := kept + [item];
        }
        n := n + 1;
      }
    }
  }

  // ---------------------------------------------------------------- conservation of the budget

  /** The characters of the string values of a tree; markers do not count. */
  function Chars(v: Json): nat
    decreases v, 0
  {
    match v
    case Str(s) => |s|
    case List(items) => ItemChars(items)
    case Dict(entries) => EntryChars(entries)
    case _ => 0
  }

  function ItemChars(items: seq<Json>): nat
    decreases items, 1
  {
    if items == [] then 0 else ItemChars(items[..|items| - 1]) + Chars(items[|items| - 1])
  }

  function EntryChars(entries: seq<Entry>): nat
    decreases entries, 1
  {
    if entries == [] then 0 else EntryChars(entries[..|entries| - 1]) + Chars(entries[|entries| - 1].value)
  }

  lemma {:induction false} ReplaceChars(entries: seq<Entry>, i: nat, e: Entry)
    requires i < |entries|
    ensures EntryChars(entries[i := e]) <= EntryChars(entries) + Chars(e.value)
  {
    var front, last := entries[..|entries| - 1], entries[|entries| - 1];
    if i < |front| {
      ReplaceChars(front, i, e);
      assert entries[i := e][..|front|] == front[i := e];
    } else {
      assert entries[i := e][..|front|] == front;
    }
  }

  lemma PutChars(entries: seq<Entry>, key: string, value: Json)
    ensures EntryChars(Put(entries, key, value)) <= EntryChars(entries) + Chars(value)
  {
    var i := IndexOfKey(entries, key);
    if i < |entries| {
      ReplaceChars(entries, i, Entry(key, value));
    } else {
      assert (entries + [Entry(key, value)])[..|entries|] == entries;
    }
  }

  /** The budget never goes negative and pays for every character that is kept; the flag never falls back. */
  ghost predicate Paid(chars: nat, st: Budget, st': Budget) {
    && chars + st'.remaining <= st.remaining && (st.remaining >= 0 ==> st'.remaining >= 0)
    && (st.truncated ==> st'.truncated)
  }

  lemma {:induction false} BudgetConserved(v: Json, depth: nat, st: Budget)
    requires st.remaining >= 0
    ensures var (r, st') := Compact(v, depth, st); Paid(Chars(r), st, st')
    decreases v, 0
  {
    hide CompactItems, CompactEntries;
    match v
    case List(items) => ItemsConserved(items, |items| - Newest(items), depth, st);
    case Dict(entries) => EntriesConserved(entries, Min(|entries|, MAX_ENTRIES), depth, st);
    case _ =>
  }

  lemma {:induction false} ItemsConserved(items: seq<Json>, n: nat, depth: nat, st: Budget)
    requires Newest(items) + n <= |items| && st.remaining >= 0
    ensures var (kept, st') := CompactItems(items, n, depth, st); Paid(ItemChars(kept), st, st')
    decreases items, n
  {
    hide Compact;
    if n > 0 {
      var (kept, st1) := CompactItems(items, n - 1, depth, st);
      ItemsConserved(items, n - 1, depth, st);
      BudgetConserved(items[Newest(items) + n - 1], depth + 1, st1);
      var item := Compact(items[Newest(items) + n - 1], depth + 1, st1).0;
      assert (kept + [item])[..|kept|] == kept;
    }
  }

  lemma {:induction false} EntriesConserved(entries: seq<Entry>, n: nat, depth: nat, st: Budget)
    requires n <= |entries| && st.remaining >= 0
    ensures var (kept, st') := CompactEntries(entries, n, depth, st); Paid(EntryChars(kept), st, st')
    decreases entries, n
  {
    hide Compact, Put;
    if n > 0 {
      var (kept, st1) := CompactEntries(entries, n - 1, depth, st);
      EntriesConserved(entries, n - 1, depth, st);
      BudgetConserved(entries[n - 1].value, depth + 1, st1);
      PutChars(kept, CutKey(entries[n - 1].key), Compact(entries[n - 1].value, depth + 1, st1).0);
    }
  }

  // ---------------------------------------------------------------- what is spent, exactly

  /** What a value met at this depth costs when the budget does not run out. */
  function Cost(v: Json, depth: nat): nat
    decreases v, 0
  {
    if depth > MAX_DEPTH then 0
    else
      match v
      case Str(s) => Min(|s|, MAX_STRING)
      case List(items) => ItemsCost(items, |items| - Newest(items), depth)
      case Dict(entries) => EntriesCost(entries, Min(|entries|, MAX_ENTRIES), depth)
      case Other(text) => if depth + 1 > MAX_DEPTH then 0 else Min(|text|, MAX_STRING)
      case _ => 0
  }

  /** The first n of the newest items. */
  function ItemsCost(items: seq<Json>, n: nat, depth: nat): nat
    requires Newest(items) + n <= |items|
    decreases items, n
  {
    if n == 0 then 0 else ItemsCost(items, n - 1, depth) + Cost(items[Newest(items) + n - 1], depth + 1)
  }

  function EntriesCost(entries: seq<Entry>, n: nat, depth: nat): nat
    requires n <= |entries|
    decreases entries, n
  {
    if n == 0 then 0 else EntriesCost(entries, n - 1, depth) + Cost(entries[n - 1].value, depth + 1)
  }

  /** What is left of a budget after this cost. */
  function Left(remaining: int, cost: nat): int {
    if cost <= remaining then remaining - cost else 0
  }

  /** The walk spends exactly the cost of the value, or the whole budget when that is less. */
  lemma {:induction false} BudgetSpent(v: Json, depth: nat, st: Budget)
    requires st.remaining >= 0
    ensures Compact(v, depth, st).1.remaining == Left(st.remaining, Cost(v, depth))
    decreases v, 0
  {
    hide CompactItems, CompactEntries, ItemsCost, EntriesCost;
    match v
    case List(items) => ItemsSpent(items, |items| - Newest(items), depth, st);
    case Dict(entries) => EntriesSpent(entries, Min(|entries|, MAX_ENTRIES), depth, st);
    case _ =>
  }

  lemma LeftTwice(remaining: int, a: nat, b: nat)
    requires remaining >= 0
    ensures Left(Left(remaining, a), b) == Left(remaining, a + b)
  {
  }

  lemma {:induction false} ItemsSpent(items: seq<Json>, n: nat, depth: nat, st: Budget)
    requires Newest(items) + n <= |items| && st.remaining >= 0
    ensures CompactItems(items, n, depth, st).1.remaining == Left(st.remaining, ItemsCost(items, n, depth))
    decreases items, n
  {
    hide Compact, Cost;
    if n > 0 {
      ItemsSpent(items, n - 1, depth, st);
      var item, st1 := items[Newest(items) + n - 1], CompactItems(items, n - 1, depth, st).1;
      LeftTwice(st.remaining, ItemsCost(items, n - 1, depth), Cost(item, depth + 1));
      if st1.remaining > 0 {
        BudgetSpent(item, depth + 1, st1);
      }
    }
  }

  lemma {:induction false} EntriesSpent(entries: seq<Entry>, n: nat, depth: nat, st: Budget)
    requires n <= |entries| && st.remaining >= 0
    ensures CompactEntries(entries, n, depth, st).1.remaining == Left(st.remaining, EntriesCost(entries, n, depth))
    decreases entries, n
  {
    hide Compact, Cost, Put;
    if n > 0 {
      EntriesSpent(entries, n - 1, depth, st);
      var value, st1 := entries[n - 1].value, CompactEntries(entries, n - 1, depth, st).1;
      LeftTwice(st.remaining, EntriesCost(entries, n - 1, depth), Cost(value, depth + 1));
      if st1.remaining > 0 {
        BudgetSpent(value, depth + 1, st1);
      }
    }
  }

  // ---------------------------------------------------------------- honest truncation

  /** The whole value as the prompt would show it: keys cut, foreign values by their text, nothing left out. */
  function Shown(v: Json): Json
    decreases v, 0
  {
    match v
    case List(items) => List(ShownItems(items, |items|))
    case Dict(entries) => Dict(ShownEntries(entries, |entries|))
    case Other(text) => Str(text)
    case _ => v
  }

  function ShownItems(items: seq<Json>, n: nat): (r: seq<Json>)
    requires n <= |items|
    ensures |r| == n
    decreases items, n
  {
    if n == 0 then [] else ShownItems(items, n - 1) + [Shown(items[n - 1])]
  }

  function ShownEntries(entries: seq<Entry>, n: nat): (r: seq<Entry>)
    requires n <= |entries|
    ensures |r| == n
    decreases entries, n
  {
    if n == 0 then []
    else ShownEntries(entries, n - 1) + [Entry(CutKey(entries[n - 1].key), Shown(entries[n - 1].value))]
  }

  /** If nothing was left out, not one entry, the entries were put one after the other. */
  lemma {:induction false} AllEntriesKept(entries: seq<Entry>, n: nat, depth: nat, st: Budget)
    requires n <= |entries|
    ensures |CompactEntries(entries, n, depth, st).0| <= n
    ensures n > 0 && |CompactEntries(entries, n, depth, st).0| == n ==>
              var (kept, st1) := CompactEntries(entries, n - 1, depth, st);
              && |kept| == n - 1 && st1.remaining > 0
              && CompactEntries(entries, n, depth, st).0
                 == kept + [Entry(CutKey(entries[n - 1].key), Compact(entries[n - 1].value, depth + 1, st1).0)]
  {
    if n > 0 {
      AllEntriesKept(entries, n - 1, depth, st);
    }
  }

  lemma {:induction false} AtMostNItems(items: seq<Json>, n: nat, depth: nat, st: Budget)
    requires Newest(items) + n <= |items|
    ensures |CompactItems(items, n, depth, st).0| <= n
  {
    if n > 0 {
      AtMostNItems(items, n - 1, depth, st);
    }
  }

  lemma {:induction false} FlagStays(v: Json, depth: nat, st: Budget)
    requires st.truncated
    ensures Compact(v, depth, st).1.truncated
    decreases v, 0
  {
    hide CompactItems, CompactEntries;
    match v
    case List(items) => FlagStaysItems(items, |items| - Newest(items), depth, st);
    case Dict(entries) => FlagStaysEntries(entries, Min(|entries|, MAX_ENTRIES), depth, st);
    case _ =>
  }

  lemma {:induction false} FlagStaysItems(items: seq<Json>, n: nat, depth: nat, st: Budget)
    requires Newest(items) + n <= |items| && st.truncated
    ensures CompactItems(items, n, depth, st).1.truncated
    decreases items, n
  {
    hide Compact;
    if n > 0 {
      FlagStaysItems(items, n - 1, depth, st);
      FlagStays(items[Newest(items) + n - 1], depth + 1, CompactItems(items, n - 1, depth, st).1);
    }
  }

  lemma {:induction false} FlagStaysEntries(entries: seq<Entry>, n: nat, depth: nat, st: Budget)
    requires n <= |entries| && st.truncated
    ensures CompactEntries(entries, n, depth, st).1.truncated
    decreases entries, n
  {
    hide Compact, Put;
    if n > 0 {
      FlagStaysEntries(entries, n - 1, depth, st);
      FlagStays(entries[n - 1].value, depth + 1, CompactEntries(entries, n - 1, depth, st).1);
    }
  }

  /** When the flag stays down, the whole value is shown. */
  lemma {:induction false} UnflaggedIsWhole(v: Json, depth: nat, st: Budget)
    requires !Compact(v, depth, st).1.truncated
    ensures Compact(v, depth, st).0 == Shown(v) && !st.truncated
    decreases v, 0
  {
    hide CompactItems, CompactEntries;
    if st.truncated {
      FlagStays(v, depth, st);
    }
    match v
    case List(items) =>
      AtMostNItems(items, |items| - Newest(items), depth, st);
      UnflaggedItems(items, |items| - Newest(items), depth, st);
    case Dict(entries) =>
      AllEntriesKept(entries, Min(|entries|, MAX_ENTRIES), depth, st);
      UnflaggedEntries(entries, Min(|entries|, MAX_ENTRIES), depth, st);
    case Str(s) => assert s[..|s|] == s;
    case Other(text) => assert text[..|text|] == text;
    case _ =>
  }

  lemma {:induction false} UnflaggedItems(items: seq<Json>, n: nat, depth: nat, st: Budget)
    requires Newest(items) == 0 && n <= |items|
    requires !CompactItems(items, n, depth, st).1.truncated && |CompactItems(items, n, depth, st).0| == n
    ensures CompactItems(items, n, depth, st).0 == ShownItems(items, n)
    decreases items, n
  {
    hide Compact, Shown;
    if n > 0 {
      var st1 := CompactItems(items, n - 1, depth, st).1;
      AtMostNItems(items, n - 1, depth, st);
      UnflaggedIsWhole(items[n - 1], depth + 1, st1);
      UnflaggedItems(items, n - 1, depth, st);
    }
  }

  lemma {:induction false} UnflaggedEntries(entries: seq<Entry>, n: nat, depth: nat, st: Budget)
    requires n <= |entries|
    requires !CompactEntries(entries, n, depth, st).1.truncated && |CompactEntries(entries, n, depth, st).0| == n
    ensures CompactEntries(entries, n, depth, st).0 == ShownEntries(entries, n)
    decreases entries, n
  {
    hide Compact, Shown, Put;
    if n > 0 {
      AllEntriesKept(entries, n, depth, st);
      UnflaggedIsWhole(entries[n - 1].value, depth + 1, CompactEntries(entries, n - 1, depth, st).1);
      UnflaggedEntries(entries, n - 1, depth, st);
    }
  }

  /** JSON proper with keys of at most eighty characters throughout. */
  predicate ShortKeys(v: Json)
    decreases v, 0
  {
    match v
    case List(items) => ShortKeysItems(items, |items|)
    case Dict(entries) => ShortKeysEntries(entries, |entries|)
    case Other(_) => false
    case _ => true
  }

  predicate ShortKeysItems(items: seq<Json>, n: nat)
    requires n <= |items|
    decreases items, n
  {
    n == 0 || (ShortKeysItems(items, n - 1) && ShortKeys(items[n - 1]))
  }

  predicate ShortKeysEntries(entries: seq<Entry>, n: nat)
    requires n <= |entries|
    decreases entries, n
  {
    n == 0 || (ShortKeysEntries(entries, n - 1) && |entries[n - 1].key| <= MAX_KEY && ShortKeys(entries[n - 1].value))
  }

  lemma {:induction false} ShownExactly(v: Json)
    ensures Shown(v) == v <==> ShortKeys(v)
    decreases v, 0
  {
    match v
    case List(items) =>
      ShownItemsExactly(items, |items|);
      assert items[..|items|] == items;
    case Dict(entries) =>
      ShownEntriesExactly(entries, |entries|);
      assert entries[..|entries|] == entries;
    case _ =>
  }

  lemma {:induction false} ShownItemsExactly(items: seq<Json>, n: nat)
    requires n <= |items|
    ensures ShownItems(items, n) == items[..n] <==> ShortKeysItems(items, n)
    decreases items, n
  {
    if n > 0 {
      ShownItemsExactly(items, n - 1);
      ShownExactly(items[n - 1]);
      var shown := ShownItems(items, n);
      assert items[..n] == items[..n - 1] + [items[n - 1]];
      assert shown[..n - 1] == ShownItems(items, n - 1) && items[..n][..n - 1] == items[..n - 1];
    }
  }

  lemma {:induction false} ShownEntriesExactly(entries: seq<Entry>, n: nat)
    requires n <= |entries|
    ensures ShownEntries(entries, n) == entries[..n] <==> ShortKeysEntries(entries, n)
    decreases entries, n
  {
    if n > 0 {
      ShownEntriesExactly(entries, n - 1);
      ShownExactly(entries[n - 1].value);
      var shown := ShownEntries(entries, n);
      assert entries[..n] == entries[..n - 1] + [entries[n - 1]];
      assert shown[..n - 1] == ShownEntries(entries, n - 1) && entries[..n][..n - 1] == entries[..n - 1];
    }
  }

  // ---------------------------------------------------------------- the flag, from the input

  /**
   Nothing of a value met at this depth with this much budget is left out: it nests within the depth, its strings and
   collections within their limits, its cut keys do not collide, and each part still finds the budget it needs.
   */
  predicate Whole(v: Json, depth: nat, budget: int)
    decreases v, 0
  {
    budget > 0 && depth <= MAX_DEPTH &&
    match v
    case Str(s) => |s| <= Min(budget, MAX_STRING)
    case Other(text) => depth + 1 <= MAX_DEPTH && |text| <= Min(budget, MAX_STRING)
    case List(items) => |items| <= MAX_ITEMS && WholeItems(items, |items|, depth, budget)
    case Dict(entries) => |entries| <= MAX_ENTRIES && WholeEntries(entries, |entries|, depth, budget)
    case _ => true
  }

  predicate WholeItems(items: seq<Json>, n: nat, depth: nat, budget: int)
    requires n <= |items| <= MAX_ITEMS
    decreases items, n
  {
    n == 0 || (WholeItems(items, n - 1, depth, budget)
               && Whole(items[n - 1], depth + 1, Left(budget, ItemsCost(items, n - 1, depth))))
  }

  predicate WholeEntries(entries: seq<Entry>, n: nat, depth: nat, budget: int)
    requires n <= |entries|
    decreases entries, n
  {
    n == 0 || (WholeEntries(entries, n - 1, depth, budget) && NewCutKey(entries, n - 1)
               && Whole(entries[n - 1].value, depth + 1, Left(budget, EntriesCost(entries, n - 1, depth))))
  }

  predicate NewCutKey(entries: seq<Entry>, k: nat)
    requires k < |entries|
  {
    forall j | 0 <= j < k :: CutKey(entries[j].key) != CutKey(entries[k].key)
  }

  /** When nothing was left out, the keys are the cut keys in order. */
  lemma {:induction false} KeysKept(entries: seq<Entry>, n: nat, depth: nat, st: Budget)
    requires n <= |entries| && |CompactEntries(entries, n, depth, st).0| == n
    ensures forall i | 0 <= i < n :: CompactEntries(entries, n, depth, st).0[i].key == CutKey(entries[i].key)
  {
    hide Compact, CompactEntries, Put;
    if n > 0 {
      AllEntriesKept(entries, n, depth, st);
      KeysKept(entries, n - 1, depth, st);
    }
  }

  /** IndexOfKey finds the first entry with the key. */
  lemma {:induction false} IndexIsFirst(entries: seq<Entry>, key: string)
    ensures forall j | 0 <= j < IndexOfKey(entries, key) :: entries[j].key != key
  {
    if entries != [] && entries[0].key != key {
      IndexIsFirst(entries[1..], key);
      assert forall j | 1 <= j < |entries| :: entries[j] == entries[1..][j - 1];
    }
  }

  /** One more entry grows the dict exactly when its cut key is new. */
  lemma PutGrows(entries: seq<Entry>, n: nat, kept: seq<Entry>, value: Json)
    requires n < |entries| && |kept| == n && forall i | 0 <= i < n :: kept[i].key == CutKey(entries[i].key)
    ensures |Put(kept, CutKey(entries[n].key), value)| == n + 1 <==> NewCutKey(entries, n)
  {
    var i := IndexOfKey(kept, CutKey(entries[n].key));
    IndexIsFirst(kept, CutKey(entries[n].key));
    if i < n {
      assert CutKey(entries[i].key) == CutKey(entries[n].key);
    }
  }

  /** The flag stays down exactly on the values that are whole. */
  lemma {:induction false} FlagExactly(v: Json, depth: nat, st: Budget)
    requires st.remaining >= 0
    ensures !Compact(v, depth, st).1.truncated <==> !st.truncated && Whole(v, depth, st.remaining)
    decreases v, 0
  {
    hide CompactItems, CompactEntries, WholeItems, WholeEntries;
    if st.truncated {
      FlagStays(v, depth, st);
    } else if !Stop(depth, st) {
      match v
      case List(items) =>
        AtMostNItems(items, |items| - Newest(items), depth, st);
        if |items| <= MAX_ITEMS {
          FlagItems(items, |items|, depth, st);
        }
      case Dict(entries) =>
        AllEntriesKept(entries, Min(|entries|, MAX_ENTRIES), depth, st);
        if |entries| <= MAX_ENTRIES {
          FlagEntries(entries, |entries|, depth, st);
        }
      case _ =>
    }
  }

  lemma {:induction false} FlagItems(items: seq<Json>, n: nat, depth: nat, st: Budget)
    requires n <= |items| <= MAX_ITEMS && st.remaining >= 0 && !st.truncated
    ensures var (kept, st') := CompactItems(items, n, depth, st);
            |kept| == n && !st'.truncated <==> WholeItems(items, n, depth, st.remaining)
    decreases items, n
  {
    hide Compact;
    if n > 0 {
      var (kept, st1) := CompactItems(items, n - 1, depth, st);
      FlagItems(items, n - 1, depth, st);
      ItemsSpent(items, n - 1, depth, st);
      FlagExactly(items[n - 1], depth + 1, st1);
      AtMostNItems(items, n - 1, depth, st);
    }
  }

  lemma {:induction false} FlagEntries(entries: seq<Entry>, n: nat, depth: nat, st: Budget)
    requires n <= |entries| && st.remaining >= 0 && !st.truncated
    ensures var (kept, st') := CompactEntries(entries, n, depth, st);
            |kept| == n && !st'.truncated <==> WholeEntries(entries, n, depth, st.remaining)
    decreases entries, n
  {
    hide Compact, Put, NewCutKey;
    if n > 0 {
      var (kept, st1) := CompactEntries(entries, n - 1, depth, st);
      FlagEntries(entries, n - 1, depth, st);
      EntriesSpent(entries, n - 1, depth, st);
      FlagExactly(entries[n - 1].value, depth + 1, st1);
      AllEntriesKept(entries, n, depth, st);
      if |kept| == n - 1 {
        KeysKept(entries, n - 1, depth, st);
        PutGrows(entries, n - 1, kept, Compact(entries[n - 1].value, depth + 1, st1).0);
      }
    }
  }

  /**
   Honest truncation, exactly. The flag stays down if and only if the input is whole. In that case the whole value is
   shown, and the output is the input if and only if no key is longer than eighty characters (and every value is
   JSON): a longer key is cut without raising the flag.
   */
  lemma HonestTruncation(v: Json, depth: nat, st: Budget)
    requires st.remaining >= 0
    ensures !Compact(v, depth, st).1.truncated <==> !st.truncated && Whole(v, depth, st.remaining)
    ensures !Compact(v, depth, st).1.truncated ==>
              Compact(v, depth, st).0 == Shown(v) && (Compact(v, depth, st).0 == v <==> ShortKeys(v))
  {
    FlagExactly(v, depth, st);
    if !Compact(v, depth, st).1.truncated {
      UnflaggedIsWhole(v, depth, st);
    }
    ShownExactly(v);
  }

  const MARKER: string := "[TRUNCATED]"

  /** n lists around a value. */
  function Nest(v: Json, n: nat): Json {
    if n == 0 then v else List([Nest(v, n - 1)])
  }

  /** The nested value as it is written out, where the marker is a string like any other. */
  function Written(v: Json): Json
    decreases v, 0
  {
    match v
    case Marker => Str(MARKER)
    case List(items) => List(WrittenItems(items, |items|))
    case _ => v
  }

  function WrittenItems(items: seq<Json>, n: nat): (r: seq<Json>)
    requires n <= |items|
    ensures |r| == n
    decreases items, n
  {
    if n == 0 then [] else WrittenItems(items, n - 1) + [Written(items[n - 1])]
  }

  lemma WrittenOne(v: Json)
    ensures Written(List([v])) == List([Written(v)])
  {
    assert WrittenItems([v], 0) == [];
    assert WrittenItems([v], 1) == [] + [Written(v)];
  }

  lemma {:induction false} WrittenNest(v: Json, n: nat)
    ensures Written(Nest(v, n)) == Nest(Written(v), n)
  {
    if n > 0 {
      WrittenOne(Nest(v, n - 1));
      WrittenNest(v, n - 1);
    }
  }

  lemma {:induction false} TooDeepNest(v: Json, n: nat, depth: nat, st: Budget)
    requires n + depth == MAX_DEPTH + 1 && st.remaining > 0
    ensures Compact(Nest(v, n), depth, st) == (Nest(Marker, n), st.(truncated := true))
  {
    if n > 0 {
      var items := [Nest(v, n - 1)];
      TooDeepNest(v, n - 1, depth + 1, st);
      assert CompactItems(items, 0, depth, st) == ([], st);
      assert [] + [Nest(Marker, n - 1)] == [Nest(Marker, n - 1)] && items[Newest(items)] == Nest(v, n - 1);
      assert CompactItems(items, 1, depth, st) == ([Nest(Marker, n - 1)], st.(truncated := true));
    }
  }

  /**
   A false alarm: nine lists around the text of the marker are written out unchanged, with the flag up, because
   the text is replaced by itself.
   */
  lemma MarkerTextIsFlagged()
    ensures var v := Nest(Str(MARKER), MAX_DEPTH + 1);
            var (r, st') := Compact(v, 0, Budget(BUDGET, false));
            Written(r) == v && st'.truncated
  {
    TooDeepNest(Str(MARKER), MAX_DEPTH + 1, 0, Budget(BUDGET, false));
    WrittenNest(Marker, MAX_DEPTH + 1);
  }

  /** One key of eighty-one characters: it is cut and the flag stays down. */
  lemma LongKeyIsCutSilently(key: string)
    requires |key| == MAX_KEY + 1
    ensures var v := Dict([Entry(key, Null)]);
            && !Compact(v, 0, Budget(BUDGET, false)).1.truncated
            && Compact(v, 0, Budget(BUDGET, false)).0 == Dict([Entry(key[..MAX_KEY], Null)]) != v
  {
    var entries := [Entry(key, Null)];
    assert CompactEntries(entries, 0, 0, Budget(BUDGET, false)) == ([], Budget(BUDGET, false));
    assert CompactEntries(entries, 1, 0, Budget(BUDGET, false)).0 == [Entry(key[..MAX_KEY], Null)];
    assert [Entry(key[..MAX_KEY], Null)][0] != entries[0];
  }

  // ---------------------------------------------------------------- markers and lists

  /** The value nests no deeper than the walk follows, when it is met at this depth. */
  predicate Fits(v: Json, depth: nat)
    decreases v, 0
  {
    depth <= MAX_DEPTH &&
    match v
    case List(items) => FitsItems(items, |items|, depth)
    case Dict(entries) => FitsEntries(entries, |entries|, depth)
    case Other(_) => depth + 1 <= MAX_DEPTH
    case Marker => false
    case _ => true
  }

  predicate FitsItems(items: seq<Json>, n: nat, depth: nat)
    requires n <= |items|
    decreases items, n
  {
    n == 0 || (FitsItems(items, n - 1, depth) && Fits(items[n - 1], depth + 1))
  }

  predicate FitsEntries(entries: seq<Entry>, n: nat, depth: nat)
    requires n <= |entries|
    decreases entries, n
  {
    n == 0 || (FitsEntries(entries, n - 1, depth) && Fits(entries[n - 1].value, depth + 1))
  }

  /** No marker anywhere in the tree. */
  predicate Unmarked(v: Json)
    decreases v, 0
  {
    match v
    case List(items) => UnmarkedItems(items)
    case Dict(entries) => UnmarkedEntries(entries)
    case Marker => false
    case _ => true
  }

  predicate UnmarkedItems(items: seq<Json>)
    decreases items, 1
  {
    items == [] || (UnmarkedItems(items[..|items| - 1]) && Unmarked(items[|items| - 1]))
  }

  predicate UnmarkedEntries(entries: seq<Entry>)
    decreases entries, 1
  {
    entries == [] || (UnmarkedEntries(entries[..|entries| - 1]) && Unmarked(entries[|entries| - 1].value))
  }

  lemma {:induction false} ReplaceUnmarked(entries: seq<Entry>, i: nat, e: Entry)
    requires i < |entries| && UnmarkedEntries(entries) && Unmarked(e.value)
    ensures UnmarkedEntries(entries[i := e])
  {
    var front := entries[..|entries| - 1];
    if i < |front| {
      ReplaceUnmarked(front, i, e);
      assert entries[i := e][..|front|] == front[i := e];
    } else {
      assert entries[i := e][..|front|] == front;
    }
  }

  lemma PutUnmarked(entries: seq<Entry>, key: string, value: Json)
    requires UnmarkedEntries(entries) && Unmarked(value)
    ensures UnmarkedEntries(Put(entries, key, value))
  {
    var i := IndexOfKey(entries, key);
    if i < |entries| {
      ReplaceUnmarked(entries, i, Entry(key, value));
    } else {
      assert (entries + [Entry(key, value)])[..|entries|] == entries;
    }
  }

  lemma {:induction false} FitsItem(items: seq<Json>, n: nat, depth: nat, i: nat)
    requires i < n <= |items| && FitsItems(items, n, depth)
    ensures Fits(items[i], depth + 1)
  {
    if i < n - 1 {
      FitsItem(items, n - 1, depth, i);
    }
  }

  lemma {:induction false} FitsEntry(entries: seq<Entry>, n: nat, depth: nat, i: nat)
    requires i < n <= |entries| && FitsEntries(entries, n, depth)
    ensures Fits(entries[i].value, depth + 1)
  {
    if i < n - 1 {
      FitsEntry(entries, n - 1, depth, i);
    }
  }

  /**
   While budget is left at the start, the spent-budget test is never met: the guards of the comprehensions come
   first. A marker therefore means that the value nests too deeply.
   */
  lemma {:induction false} MarkerMeansTooDeep(v: Json, depth: nat, st: Budget)
    requires st.remaining > 0 && Fits(v, depth)
    ensures Unmarked(Compact(v, depth, st).0)
    decreases v, 0
  {
    hide CompactItems, CompactEntries;
    match v
    case List(items) => NoMarkerItems(items, |items| - Newest(items), depth, st);
    case Dict(entries) => NoMarkerEntries(entries, Min(|entries|, MAX_ENTRIES), depth, st);
    case _ =>
  }

  lemma {:induction false} NoMarkerItems(items: seq<Json>, n: nat, depth: nat, st: Budget)
    requires Newest(items) + n <= |items| && FitsItems(items, |items|, depth)
    ensures UnmarkedItems(CompactItems(items, n, depth, st).0)
    decreases items, n
  {
    hide Compact;
    if n > 0 {
      NoMarkerItems(items, n - 1, depth, st);
      var (kept1, st1) := CompactItems(items, n - 1, depth, st);
      FitsItem(items, |items|, depth, Newest(items) + n - 1);
      if st1.remaining > 0 {
        var item := items[Newest(items) + n - 1];
        MarkerMeansTooDeep(item, depth + 1, st1);
        assert (kept1 + [Compact(item, depth + 1, st1).0])[..|kept1|] == kept1;
      }
    }
  }

  lemma {:induction false} NoMarkerEntries(entries: seq<Entry>, n: nat, depth: nat, st: Budget)
    requires n <= |entries| && FitsEntries(entries, |entries|, depth)
    ensures UnmarkedEntries(CompactEntries(entries, n, depth, st).0)
    decreases entries, n
  {
    hide Compact, Put;
    if n > 0 {
      NoMarkerEntries(entries, n - 1, depth, st);
      var (kept1, st1) := CompactEntries(entries, n - 1, depth, st);
      FitsEntry(entries, |entries|, depth, n - 1);
      if st1.remaining > 0 {
        MarkerMeansTooDeep(entries[n - 1].value, depth + 1, st1);
        UnmarkedOneMore(entries, n, depth, st, kept1, st1);
      }
    }
  }

  lemma UnmarkedOneMore(entries: seq<Entry>, n: nat, depth: nat, st: Budget, kept: seq<Entry>, st1: Budget)
    requires 0 < n <= |entries| && CompactEntries(entries, n - 1, depth, st) == (kept, st1) && st1.remaining > 0
    requires UnmarkedEntries(kept) && Unmarked(Compact(entries[n - 1].value, depth + 1, st1).0)
    ensures UnmarkedEntries(CompactEntries(entries, n, depth, st).0)
  {
    PutUnmarked(kept, CutKey(entries[n - 1].key), Compact(entries[n - 1].value, depth + 1, st1).0);
  }

  /**
   A kept list is what its first items, oldest first among the newest hundred, compact to. Item j is there if and
   only if the budget exceeds the cost of the items before it.
   */
  lemma {:induction false} ListKeepsPrefix(items: seq<Json>, n: nat, depth: nat, st: Budget)
    requires Newest(items) + n <= |items| && st.remaining >= 0
    ensures var (kept, st') := CompactItems(items, n, depth, st);
            && |kept| <= n <= MAX_ITEMS && CompactItems(items, |kept|, depth, st) == (kept, st')
            && forall j | 0 <= j < n :: j < |kept| <==> st.remaining > ItemsCost(items, j, depth)
  {
    hide Compact, Cost;
    if n > 0 {
      ListKeepsPrefix(items, n - 1, depth, st);
      ItemsSpent(items, n - 1, depth, st);
      if n > 1 {
        assert ItemsCost(items, n - 1, depth) >= ItemsCost(items, n - 2, depth);
      }
    }
  }

  /**
   When the newest item of a list survives, exactly: the budget must exceed the cost of the up to 99 items before it.
   The oldest of those items, by contrast, is there whenever any budget is left.
   */
  lemma NewestIsKeptExactly(items: seq<Json>, depth: nat, st: Budget)
    requires items != [] && st.remaining >= 0 && depth <= MAX_DEPTH
    ensures var n, r := |items| - Newest(items), Compact(List(items), depth, st).0;
            && (r.List? && |r.items| >= 1 <==> st.remaining > 0)
            && (r.List? && |r.items| == n <==> st.remaining > ItemsCost(items, n - 1, depth))
  {
    var n := |items| - Newest(items);
    ListKeepsPrefix(items, n, depth, st);
    assert ItemsCost(items, 0, depth) == 0;
  }

  /** Texts of the full length that fit are kept whole and leave the rest of the budget. */
  lemma {:induction false} FullTexts(items: seq<Json>, n: nat, depth: nat)
    requires n <= |items| <= 9 && depth < MAX_DEPTH && n * MAX_STRING <= BUDGET
    requires forall i | 0 <= i < |items| :: items[i].Str? && |items[i].s| == MAX_STRING
    ensures CompactItems(items, n, depth, Budget(BUDGET, false)) == (items[..n], Budget(BUDGET - n * MAX_STRING, false))
  {
    if n > 0 {
      FullTexts(items, n - 1, depth);
      var item := items[n - 1];
      assert item.s[..MAX_STRING] == item.s && item == Str(item.s);
      assert items[..n] == items[..n - 1] + [item];
    }
  }

  /** Nine messages of 3000 characters, oldest first: the eight oldest are kept and the newest is dropped. */
  lemma NewestIsDropped(key: string, items: seq<Json>)
    requires |key| <= MAX_KEY && |items| == 9
    requires forall i | 0 <= i < |items| :: items[i].Str? && |items[i].s| == MAX_STRING
    ensures Compact(Dict([Entry(key, List(items))]), 0, Budget(BUDGET, false))
            == (Dict([Entry(key, List(items[..8]))]), Budget(0, true))
  {
    var entries, st := [Entry(key, List(items))], Budget(BUDGET, false);
    FullTexts(items, 8, 1);
    assert CompactItems(items, 9, 1, st) == (items[..8], Budget(0, false));
    assert Compact(List(items), 1, st) == (List(items[..8]), Budget(0, true));
    assert CompactEntries(entries, 0, 0, st) == ([], st);
    assert Put([], key, List(items[..8])) == [Entry(key, List(items[..8]))];
    assert CompactEntries(entries, 1, 0, st) == ([Entry(key, List(items[..8]))], Budget(0, true));
  }

  // ---------------------------------------------------------------- what is kept of a value

  predicate IsCutKey(short: string, key: string) {
    short <= key && |short| == if |key| <= 80 then |key| else 80
  }

  /** The beginning of a text, as long as its limit and the budget allow. */
  predicate CutText(s: string, budget: int, r: Json) {
    r.Str? && r.s <= s && |r.s| == Min(|s|, Min(budget, 3000))
  }

  /**
   What is left of a value met at this depth with this budget: a text keeps its beginning; a list the cut forms of the
   first of its newest hundred items, while there is budget for them; a dict the cut values of its first entries, at
   most forty and while there is budget, under their cut keys; and everything else is kept as it is.
   */
  ghost predicate Cut(v: Json, depth: nat, budget: int, r: Json)
    decreases v, 0
  {
    if budget <= 0 || depth > 8 then r == Marker
    else
      match v
      case Str(s) => CutText(s, budget, r)
      case Other(text) => if depth == 8 then r == Marker else CutText(text, budget, r)
      case List(items) => r.List? && CutItems(items, depth, budget, r.items)
      case Dict(entries) =>
        r.Dict? && exists p: nat :: p <= |entries| && p <= 40 && CutEntries(entries, p, depth, budget, r.entries)
                                    && (p < Min(|entries|, 40) ==> budget <= EntriesCost(entries, p, depth))
      case _ => r == v
  }

  /** Item after item of the newest hundred, up to the first one without budget. */
  ghost predicate CutItems(items: seq<Json>, depth: nat, budget: int, kept: seq<Json>)
    decreases items, 0
  {
    var n := Min(|items|, 100);
    && |kept| <= n && (|kept| < n ==> budget <= ItemsCost(items, |kept|, depth))
    && forall i | 0 <= i < |kept| ::
         Cut(items[|items| - n + i], depth + 1, Left(budget, ItemsCost(items, i, depth)), kept[i])
  }

  /** Exactly the first p entries were taken, and of those with the same cut key the last one counts. */
  ghost predicate CutEntries(entries: seq<Entry>, p: nat, depth: nat, budget: int, kept: seq<Entry>)
    requires p <= |entries|
    decreases entries, 2
  {
    && (forall k | 0 <= k < |kept| :: CutEntry(entries, p, depth, budget, kept[k]))
    && (forall j | 0 <= j < p :: HasCutKey(kept, entries[j].key))
    && (forall k, l | 0 <= k < l < |kept| :: kept[k].key != kept[l].key)
  }

  ghost predicate CutEntry(entries: seq<Entry>, p: nat, depth: nat, budget: int, e: Entry)
    requires p <= |entries|
    decreases entries, 1
  {
    exists j :: 0 <= j < p && LastWithKey(entries, p, j, e.key)
                && Cut(entries[j].value, depth + 1, Left(budget, EntriesCost(entries, j, depth)), e.value)
  }

  ghost predicate LastWithKey(entries: seq<Entry>, p: nat, j: nat, short: string)
    requires j < p <= |entries|
  {
    IsCutKey(short, entries[j].key) && forall l | j < l < p :: !IsCutKey(short, entries[l].key)
  }

  ghost predicate HasCutKey(kept: seq<Entry>, key: string) {
    exists k :: 0 <= k < |kept| && IsCutKey(kept[k].key, key)
  }

  lemma CutKeyIsCutKey(key: string, short: string)
    ensures IsCutKey(short, key) <==> short == CutKey(key)
  {
    if IsCutKey(short, key) {
      assert short == key[..|short|];
    }
  }

  /** An entry that was kept stays right when an entry with another key is taken. */
  lemma OtherEntryStays(entries: seq<Entry>, p: nat, depth: nat, budget: int, e: Entry)
    requires p < |entries| && CutEntry(entries, p, depth, budget, e) && e.key != CutKey(entries[p].key)
    ensures CutEntry(entries, p + 1, depth, budget, e)
  {
    var j :| 0 <= j < p && LastWithKey(entries, p, j, e.key)
             && Cut(entries[j].value, depth + 1, Left(budget, EntriesCost(entries, j, depth)), e.value);
    CutKeyIsCutKey(entries[p].key, e.key);
    assert LastWithKey(entries, p + 1, j, e.key);
  }

  lemma NewEntryIsCut(entries: seq<Entry>, p: nat, depth: nat, budget: int, value: Json)
    requires p < |entries|
    requires Cut(entries[p].value, depth + 1, Left(budget, EntriesCost(entries, p, depth)), value)
    ensures CutEntry(entries, p + 1, depth, budget, Entry(CutKey(entries[p].key), value))
  {
    CutKeyIsCutKey(entries[p].key, CutKey(entries[p].key));
    assert LastWithKey(entries, p + 1, p, CutKey(entries[p].key));
  }

  /** Where Put leaves the entry it puts, and that it leaves the others alone. */
  lemma PutEntries(kept: seq<Entry>, key: string, value: Json)
    requires forall k, l | 0 <= k < l < |kept| :: kept[k].key != kept[l].key
    ensures var r, i := Put(kept, key, value), IndexOfKey(kept, key);
            && i < |r| && r[i] == Entry(key, value) && |kept| <= |r|
            && (forall k | 0 <= k < |r| && k != i :: k < |kept| && r[k] == kept[k] && r[k].key != key)
            && forall k, l | 0 <= k < l < |r| :: r[k].key != r[l].key
  {
    var i := IndexOfKey(kept, key);
    IndexIsFirst(kept, key);
    if i < |kept| {
      forall k | 0 <= k < |kept| && k != i ensures kept[k].key != key {
        assert kept[i].key == key;
      }
    }
  }

  lemma PutCut(entries: seq<Entry>, p: nat, depth: nat, budget: int, kept: seq<Entry>, value: Json)
    requires p < |entries| && CutEntries(entries, p, depth, budget, kept)
    requires Cut(entries[p].value, depth + 1, Left(budget, EntriesCost(entries, p, depth)), value)
    ensures CutEntries(entries, p + 1, depth, budget, Put(kept, CutKey(entries[p].key), value))
  {
    hide Put, IndexOfKey, CutEntry, HasCutKey, Cut;
    var key := CutKey(entries[p].key);
    var r, i := Put(kept, key, value), IndexOfKey(kept, key);
    PutEntries(kept, key, value);
    forall k | 0 <= k < |r| ensures CutEntry(entries, p + 1, depth, budget, r[k]) {
      if k == i {
        NewEntryIsCut(entries, p, depth, budget, value);
      } else {
        OtherEntryStays(entries, p, depth, budget, r[k]);
      }
    }
    forall j | 0 <= j < p + 1 ensures HasCutKey(r, entries[j].key) {
      if j == p {
        PutHasNew(kept, entries[p].key, value);
      } else {
        PutHasKey(kept, key, value, entries[j].key);
      }
    }
  }

  lemma PutHasNew(kept: seq<Entry>, key: string, value: Json)
    requires forall k, l | 0 <= k < l < |kept| :: kept[k].key != kept[l].key
    ensures HasCutKey(Put(kept, CutKey(key), value), key)
  {
    PutEntries(kept, CutKey(key), value);
    CutKeyIsCutKey(key, CutKey(key));
    assert IsCutKey(Put(kept, CutKey(key), value)[IndexOfKey(kept, CutKey(key))].key, key);
  }

  lemma PutHasKey(kept: seq<Entry>, short: string, value: Json, key: string)
    requires HasCutKey(kept, key)
    ensures HasCutKey(Put(kept, short, value), key)
  {
    var k :| 0 <= k < |kept| && IsCutKey(kept[k].key, key);
    assert Put(kept, short, value)[k].key == kept[k].key;
  }

  lemma WalkMeans(v: Json, depth: nat, st: Budget)
    ensures st.remaining >= 0 ==>
              var (r, st') := Compact(v, depth, st);
              && Cut(v, depth, st.remaining, r) && st'.remaining == Left(st.remaining, Cost(v, depth))
              && (st'.truncated <==> st.truncated || !Whole(v, depth, st.remaining))
  {
    if st.remaining >= 0 {
      KeepsCutForm(v, depth, st);
      BudgetSpent(v, depth, st);
      FlagExactly(v, depth, st);
    }
  }

  /** For every value, depth and budget, the walk keeps exactly this much of the value. */
  lemma {:induction false} KeepsCutForm(v: Json, depth: nat, st: Budget)
    requires st.remaining >= 0
    ensures Cut(v, depth, st.remaining, Compact(v, depth, st).0)
    decreases v, 0
  {
    hide CompactItems, CompactEntries, ItemsTaken, Taken;
    if !Stop(depth, st) {
      match v
      case List(items) =>
        KeepsCutItems(items, |items| - Newest(items), depth, st);
        ItemsAreCut(items, depth, st.remaining, CompactItems(items, |items| - Newest(items), depth, st).0);
      case Dict(entries) =>
        var p := KeepsCutEntries(entries, Min(|entries|, MAX_ENTRIES), depth, st);
        TakenIsCut(entries, p, Min(|entries|, MAX_ENTRIES), depth, st.remaining,
                   CompactEntries(entries, Min(|entries|, MAX_ENTRIES), depth, st).0);
      case _ =>
    }
  }

  /** The first items were taken, up to the first one of n without budget. */
  ghost predicate ItemsTaken(items: seq<Json>, n: nat, depth: nat, budget: int, kept: seq<Json>)
    requires Newest(items) + n <= |items|
  {
    && |kept| <= n && (|kept| < n ==> budget <= ItemsCost(items, |kept|, depth))
    && forall i | 0 <= i < |kept| ::
         Cut(items[Newest(items) + i], depth + 1, Left(budget, ItemsCost(items, i, depth)), kept[i])
  }

  lemma NoItems(items: seq<Json>, depth: nat, st: Budget)
    ensures ItemsTaken(items, 0, depth, st.remaining, CompactItems(items, 0, depth, st).0)
  {
  }

  lemma OneMoreItem(items: seq<Json>, n: nat, depth: nat, budget: int, kept: seq<Json>, item: Json)
    requires Newest(items) + n < |items| && ItemsTaken(items, n, depth, budget, kept)
    requires budget > ItemsCost(items, n, depth)
    requires Cut(items[Newest(items) + n], depth + 1, Left(budget, ItemsCost(items, n, depth)), item)
    ensures ItemsTaken(items, n + 1, depth, budget, kept + [item])
  {
    hide Cut;
    ItemsCostGrows(items, |kept|, n, depth);
  }

  lemma NoMoreItem(items: seq<Json>, n: nat, depth: nat, budget: int, kept: seq<Json>)
    requires Newest(items) + n < |items| && ItemsTaken(items, n, depth, budget, kept)
    requires budget <= ItemsCost(items, n, depth)
    ensures ItemsTaken(items, n + 1, depth, budget, kept)
  {
  }

  lemma {:induction false} KeepsCutItems(items: seq<Json>, n: nat, depth: nat, st: Budget)
    requires Newest(items) + n <= |items| && st.remaining >= 0
    ensures ItemsTaken(items, n, depth, st.remaining, CompactItems(items, n, depth, st).0)
    decreases items, n
  {
    hide Compact, Cut, ItemsTaken;
    if n == 0 {
      NoItems(items, depth, st);
    } else {
      KeepsCutItems(items, n - 1, depth, st);
      ItemsSpent(items, n - 1, depth, st);
      var (kept, st1) := CompactItems(items, n - 1, depth, st);
      if st1.remaining > 0 {
        var item := items[Newest(items) + n - 1];
        KeepsCutForm(item, depth + 1, st1);
        OneMoreItem(items, n - 1, depth, st.remaining, kept, Compact(item, depth + 1, st1).0);
      } else {
        NoMoreItem(items, n - 1, depth, st.remaining, kept);
      }
    }
  }

  lemma {:induction false} ItemsCostGrows(items: seq<Json>, m: nat, n: nat, depth: nat)
    requires m <= n && Newest(items) + n <= |items|
    ensures ItemsCost(items, m, depth) <= ItemsCost(items, n, depth)
  {
    if m < n {
      ItemsCostGrows(items, m, n - 1, depth);
    }
  }

  lemma {:induction false} EntriesCostGrows(entries: seq<Entry>, m: nat, n: nat, depth: nat)
    requires m <= n <= |entries|
    ensures EntriesCost(entries, m, depth) <= EntriesCost(entries, n, depth)
  {
    if m < n {
      EntriesCostGrows(entries, m, n - 1, depth);
    }
  }

  lemma ItemsAreCut(items: seq<Json>, depth: nat, budget: int, kept: seq<Json>)
    requires budget > 0 && depth <= 8 && ItemsTaken(items, |items| - Newest(items), depth, budget, kept)
    ensures Cut(List(items), depth, budget, List(kept))
  {
    assert CutItems(items, depth, budget, kept);
  }

  /** The first entries were taken, up to the first one of n without budget. */
  ghost predicate Taken(entries: seq<Entry>, p: nat, n: nat, depth: nat, budget: int, kept: seq<Entry>)
    requires p <= n <= |entries|
  {
    CutEntries(entries, p, depth, budget, kept) && (p < n ==> budget <= EntriesCost(entries, p, depth))
  }

  lemma TakenIsCut(entries: seq<Entry>, p: nat, n: nat, depth: nat, budget: int, kept: seq<Entry>)
    requires budget > 0 && depth <= 8 && n == Min(|entries|, MAX_ENTRIES)
    requires p <= n && Taken(entries, p, n, depth, budget, kept)
    ensures Cut(Dict(entries), depth, budget, Dict(kept))
  {
    hide CutEntries;
    assert CutEntries(entries, p, depth, budget, kept);
  }

  lemma NothingTaken(entries: seq<Entry>, depth: nat, st: Budget)
    ensures Taken(entries, 0, 0, depth, st.remaining, CompactEntries(entries, 0, depth, st).0)
  {
  }

  lemma OneMoreTaken(entries: seq<Entry>, p: nat, n: nat, depth: nat, budget: int, kept: seq<Entry>, value: Json)
    requires p <= n < |entries| && Taken(entries, p, n, depth, budget, kept) && budget > EntriesCost(entries, n, depth)
    requires Cut(entries[n].value, depth + 1, Left(budget, EntriesCost(entries, n, depth)), value)
    ensures Taken(entries, n + 1, n + 1, depth, budget, Put(kept, CutKey(entries[n].key), value))
  {
    hide Cut, Put, CutEntries;
    EntriesCostGrows(entries, p, n, depth);
    PutCut(entries, n, depth, budget, kept, value);
  }

  lemma NoMoreTaken(entries: seq<Entry>, p: nat, n: nat, depth: nat, budget: int, kept: seq<Entry>)
    requires p <= n < |entries| && Taken(entries, p, n, depth, budget, kept) && budget <= EntriesCost(entries, n, depth)
    ensures Taken(entries, p, n + 1, depth, budget, kept)
  {
    hide CutEntries;
  }

  /** The comprehension takes its next entry when there is budget for it. */
  lemma NextEntry(entries: seq<Entry>, n: nat, depth: nat, st: Budget)
    requires 0 < n <= |entries|
    ensures var (kept, st1) := CompactEntries(entries, n - 1, depth, st);
            CompactEntries(entries, n, depth, st).0
            == if st1.remaining > 0
               then Put(kept, CutKey(entries[n - 1].key), Compact(entries[n - 1].value, depth + 1, st1).0) else kept
  {
    hide Compact, Put;
  }

  lemma {:induction false} KeepsCutEntries(entries: seq<Entry>, n: nat, depth: nat, st: Budget) returns (p: nat)
    requires n <= |entries| && st.remaining >= 0
    ensures p <= n && Taken(entries, p, n, depth, st.remaining, CompactEntries(entries, n, depth, st).0)
    decreases entries, n
  {
    hide Compact, CompactEntries, Put, Cut, Taken;
    if n == 0 {
      NothingTaken(entries, depth, st);
      return 0;
    }
    p := KeepsCutEntries(entries, n - 1, depth, st);
    NextEntry(entries, n, depth, st);
    EntriesSpent(entries, n - 1, depth, st);
    var (kept, st1) := CompactEntries(entries, n - 1, depth, st);
    if st1.remaining > 0 {
      KeepsCutForm(entries[n - 1].value, depth + 1, st1);
      OneMoreTaken(entries, p, n - 1, depth, st.remaining, kept, Compact(entries[n - 1].value, depth + 1, st1).0);
      return n;
    }
    NoMoreTaken(entries, p, n - 1, depth, st.remaining, kept);
  }
}
