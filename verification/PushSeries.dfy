/** A list kept by calls of Push on a path text. */
module PushSeries {
  import opened Paths
  import opened JsonTree
  import opened Heap
  import opened Database
  import opened Isolation
  import opened PushUnique
  import opened PushOrder
  import opened PushList
  import PushId

  /** Every call pushes to a text of `p`, whatever slashes it is written with. */
  ghost predicate PushesTo(calls: seq<Mutation>, p: Path) {
    forall i | 0 <= i < |calls| :: calls[i].PushCall? && SplitPath(calls[i].path) == p
  }

  /** What the generator sees of the calls. */
  function Ticks(calls: seq<Mutation>): (ts: seq<PushId.Call>)
    requires forall i | 0 <= i < |calls| :: calls[i].PushCall?
    ensures |ts| == |calls|
    ensures forall i | 0 <= i < |ts| :: ts[i].Valid() && ts[i].now == calls[i].now
  {
    seq(|calls|, i requires 0 <= i < |calls| => PushId.Call(calls[i].now, PushId.Reduced(calls[i].random)))
  }

  function ValuesOf(calls: seq<Mutation>): (js: seq<Json>)
    requires forall i | 0 <= i < |calls| :: calls[i].PushCall?
    ensures |js| == |calls|
  {
    seq(|calls|, i requires 0 <= i < |calls| => calls[i].j)
  }

  /** The state after call `i`. */
  function StateAt(s: PushId.State, ts: seq<PushId.Call>, i: nat): (r: PushId.State)
    requires s.Valid() && i < |ts| && forall k | 0 <= k < |ts| :: ts[k].Valid()
    ensures r.Valid()
    decreases i
  {
    PushId.Next(if i == 0 then s else StateAt(s, ts, i - 1), ts[i])
  }

  lemma {:induction false} StatesAt(s: PushId.State, ts: seq<PushId.Call>, i: nat)
    requires s.Valid() && i < |ts| && forall k | 0 <= k < |ts| :: ts[k].Valid()
    ensures PushId.States(s, ts)[i] == StateAt(s, ts, i)
    decreases i
  {
    if i == 0 {
      StateAtStart(s, ts);
    } else {
      StatesAt(s, ts, i - 1);
    }
  }

  /** The states of a run, but the first, are those of the rest of it. */
  lemma {:induction false} StatesOfRest(s: PushId.State, ts: seq<PushId.Call>, rest: seq<PushId.Call>, i: nat)
    requires s.Valid() && i < |rest| && forall k | 0 <= k < |ts| :: ts[k].Valid()
    requires ts != [] && rest == ts[1..]
    ensures StateAt(s, ts, i + 1) == StateAt(PushId.Next(s, ts[0]), rest, i)
    decreases i
  {
    if i > 0 {
      StatesOfRest(s, ts, rest, i - 1);
    }
  }

  lemma {:induction false} SeriesKey(calls: seq<Mutation>, s: PushId.State, ts: seq<PushId.Call>, i: nat)
    requires s.Valid() && i < |calls| && (forall i | 0 <= i < |calls| :: calls[i].PushCall?) && ts == Ticks(calls)
    ensures KeysOf(calls, s)[i] == PushId.Id(StateAt(s, ts, i))
    decreases i
  {
    if i > 0 {
      SeriesKey(calls[1..], Ticked(calls[0], s), ts[1..], i - 1);
      StatesOfRest(s, ts, ts[1..], i - 1);
    }
  }

  lemma SeriesKeys(calls: seq<Mutation>, s: PushId.State)
    requires s.Valid() && forall i | 0 <= i < |calls| :: calls[i].PushCall?
    ensures KeysOf(calls, s) == PushId.Keys(s, Ticks(calls))
  {
    forall i | 0 <= i < |calls|
      ensures KeysOf(calls, s)[i] == PushId.Keys(s, Ticks(calls))[i]
    {
      SeriesKey(calls, s, Ticks(calls), i);
      StatesAt(s, Ticks(calls), i);
    }
  }

  lemma {:induction false} EffectAt(calls: seq<Mutation>, keys: seq<string>, i: nat)
    requires |keys| == |calls| && i < |calls|
    ensures Effects(calls, keys)[i] == Effect(calls[i], keys[i])
    decreases i
  {
    if i > 0 {
      EffectAt(calls[1..], keys[1..], i - 1);
    }
  }

  lemma {:induction false} RunIsPushed(ops: seq<Op>, tree: Fields, p: Path, keys: seq<string>, values: seq<Json>)
    requires |ops| == |keys| == |values|
    requires forall i | 0 <= i < |ops| :: ops[i] == Op(p + [keys[i]], Put(values[i]))
    ensures Run(ops, tree) == Pushed(tree, p, keys, values)
    decreases |ops|
  {
    if ops != [] {
      var n := |ops| - 1;
      RunIsPushed(ops[..n], tree, p, keys[..n], values[..n]);
    }
  }

  lemma SeriesPushed(calls: seq<Mutation>, keys: seq<string>, tree: Fields, p: Path)
    requires |keys| == |calls| && PushesTo(calls, p)
    ensures Run(Effects(calls, keys), tree) == Pushed(tree, p, keys, ValuesOf(calls))
  {
    var values := ValuesOf(calls);
    forall i | 0 <= i < |calls|
      ensures Effects(calls, keys)[i] == Op(p + [keys[i]], Put(values[i]))
    {
      EffectAt(calls, keys, i);
    }
    RunIsPushed(Effects(calls, keys), tree, p, keys, values);
  }

  /** Listed in byte order, the keys of `m` are those returned, in the order of the calls, exactly if the clock did not
      go back and every millisecond had room; and then the values under them are those pushed, in that order. */
  ghost predicate ListsInOrder(m: Fields, calls: seq<Mutation>, keys: seq<string>, s: PushId.State,
                               listing: seq<string>, suffixes: nat)
    requires s.Valid() && |keys| == |calls| && forall i | 0 <= i < |calls| :: calls[i].PushCall?
  {
    PushId.Ascending(listing) && (forall k :: k in listing <==> k in m) ==>
      && (listing == keys <==> Clocked(Ticks(calls)) && Room(s, Ticks(calls), suffixes))
      && (listing == keys ==> forall i | 0 <= i < |keys| :: keys[i] in m && m[keys[i]] == calls[i].j)
  }

  lemma SeriesListing(calls: seq<Mutation>, keys: seq<string>, s: PushId.State, tree: Fields, p: Path,
                      listing: seq<string>, suffixes: nat)
    requires s.Valid() && keys == KeysOf(calls, s) && PushesTo(calls, p) && FieldsOf(Fetch(tree, p)) == map[]
    requires suffixes == PushId.Pow64(12) && forall i | 0 <= i < |calls| :: calls[i].now < PushId.Pow64(8)
    ensures ListsInOrder(FieldsOf(Fetch(Run(Effects(calls, keys), tree), p)), calls, keys, s, listing, suffixes)
  {
    SeriesKeys(calls, s);
    SeriesPushed(calls, keys, tree, p);
    PushListOrder(tree, p, s, Ticks(calls), ValuesOf(calls), listing, suffixes);
  }

  /** What calls of Push on texts of one path leave below a node that had no members. */
  method PushAll(db: DB, gen: PushId.Generator, calls: seq<Mutation>, ghost p: Path, ghost listing: seq<string>,
                 ghost suffixes: nat)
    returns (keys: seq<string>)
    requires Ready(db, gen, AllHanded(calls)) && AllIntact(calls) && PushesTo(calls, p)
    requires FieldsOf(Fetch(db.tree, p)) == map[]
    requires suffixes == PushId.Pow64(12) && forall i | 0 <= i < |calls| :: calls[i].now < PushId.Pow64(8)
    modifies db`root, db`tree, db`layout, db.layout.Maps(), db.HubObjects(), gen, gen.lastRand, AllMaps(calls)
    ensures Ready(db, gen, {}) && |keys| == |calls|
    ensures ListsInOrder(FieldsOf(Fetch(db.tree, p)), calls, keys, old(gen.Model()), listing, suffixes)
  {
    ghost var s, tree := gen.Model(), db.tree;
    keys := SeriesKeepsReads(db, gen, calls, {});
    SeriesListing(calls, keys, s, tree, p, listing, suffixes);
  }
}
