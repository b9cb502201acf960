/** A list kept by pushing: what the keys and values below a node are after a series of pushes. */
module PushList {
  import opened Options
  import opened Paths
  import opened JsonTree
  import opened TreeLaws
  import opened PushId
  import opened PushUnique
  import opened PushOrder

  /** The content after pushing `values` below `p` under `keys`, in order. */
  function Pushed(root: Fields, p: Path, keys: seq<string>, values: seq<Json>): Fields
    requires |keys| == |values|
  {
    if keys == [] then root
    else
      var n := |keys| - 1;
      Apply(Op(p + [keys[n]], Put(values[n])), Pushed(root, p, keys[..n], values[..n]))
  }

  lemma PushAdds(root: Fields, p: Path, k: string, v: Json)
    ensures FieldsOf(Fetch(Apply(Op(p + [k], Put(v)), root), p)) == FieldsOf(Fetch(root, p))[k := v]
  {
    var op, x := Op(p + [k], Put(v)), Fetch(root, p);
    SubtreeProjection(op, root, p);
    ProjectCases(Put(v), p + [k], p, x);
    assert (p + [k])[|p|..] == [k] && [k][1..] == [];
    assert ApplyAt(Put(v), [k], x) == Some(Obj(WithChild(FieldsOf(x), k, ApplyAt(Put(v), [], Child(x, k)))));
  }

  /** The members are the values under their keys. */
  ghost predicate Lists(m: Fields, keys: seq<string>, values: seq<Json>)
    requires |keys| == |values|
  {
    && (forall k :: k in m <==> k in keys)
    && (forall i | 0 <= i < |keys| :: keys[i] in m && m[keys[i]] == values[i])
  }

  lemma ListsOneMore(m: Fields, keys: seq<string>, values: seq<Json>, k: string, v: Json)
    requires |keys| == |values| && Lists(m, keys, values) && k !in keys
    ensures Lists(m[k := v], keys + [k], values + [v])
  {
    forall i | 0 <= i < |keys + [k]|
      ensures (keys + [k])[i] in m[k := v] && m[k := v][(keys + [k])[i]] == (values + [v])[i]
    {
      if i < |keys| { assert keys[i] in keys; }
    }
  }

  lemma FrontAndLast<T>(s: seq<T>)
    requires s != []
    ensures s[..|s| - 1] + [s[|s| - 1]] == s
  {
  }

  /** Below a node without members, the members are the pushed values under their keys. */
  lemma {:induction false} PushedMembers(root: Fields, p: Path, keys: seq<string>, values: seq<Json>)
    requires |keys| == |values| && FieldsOf(Fetch(root, p)) == map[]
    requires forall i, j | 0 <= i < j < |keys| :: keys[i] != keys[j]
    ensures Lists(FieldsOf(Fetch(Pushed(root, p, keys, values), p)), keys, values)
    decreases |keys|
  {
    if keys != [] {
      var n := |keys| - 1;
      var ks, vs := keys[..n], values[..n];
      var before := Pushed(root, p, ks, vs);
      assert forall i | 0 <= i < n :: ks[i] == keys[i];
      PushedMembers(root, p, ks, vs);
      PushAdds(before, p, keys[n], values[n]);
      assert keys[n] !in ks;
      ListsOneMore(FieldsOf(Fetch(before, p)), ks, vs, keys[n], values[n]);
      FrontAndLast(keys);
      FrontAndLast(values);
    }
  }

  lemma AllButLast(a: seq<string>)
    requires a != [] && Ascending(a)
    ensures var x, front := a[|a| - 1], a[..|a| - 1];
      Ascending(front) && a == front + [x] && forall k :: k in front <==> k in a && k != x
  {
    AscendingDistinct(a);
    var x, front := a[|a| - 1], a[..|a| - 1];
    assert a == front + [x];
    assert x !in front;
  }

  lemma SameLast(a: seq<string>, b: seq<string>)
    requires a != [] && b != [] && Ascending(a) && Ascending(b) && forall k :: k in a <==> k in b
    ensures a[|a| - 1] == b[|b| - 1]
  {
    var x, y := a[|a| - 1], b[|b| - 1];
    assert x in a && y in b;
    if x != y {
      LastIsTop(a, y);
      LastIsTop(b, x);
      LessTransitive(x, y, x);
      LessIrreflexive(x);
    }
  }

  /** There is one ascending listing of a set of strings. */
  lemma {:induction false} OneListing(a: seq<string>, b: seq<string>)
    requires Ascending(a) && Ascending(b) && forall k :: k in a <==> k in b
    ensures a == b
    decreases |a|
  {
    assert b != [] ==> b[0] in b && b[0] in a;
    assert a != [] ==> a[0] in a && a[0] in b;
    if a != [] {
      SameLast(a, b);
      AllButLast(a);
      AllButLast(b);
      OneListing(a[..|a| - 1], b[..|b| - 1]);
    }
  }

  lemma LastIsTop(a: seq<string>, k: string)
    requires Ascending(a) && k in a && a[|a| - 1] != k
    ensures Less(k, a[|a| - 1])
  {
    var i :| 0 <= i < |a| && a[i] == k;
  }

  /** After a series of pushes below a node without members, the keys in byte order are the keys in push order
      exactly if the clock did not go back and every millisecond had room; and then the values under them are in
      push order. */
  lemma PushListOrder(root: Fields, p: Path, s: State, calls: seq<Call>, values: seq<Json>, listing: seq<string>,
                      suffixes: nat)
    requires s.Valid() && forall i | 0 <= i < |calls| :: calls[i].Valid() && calls[i].now < Pow64(8)
    requires |values| == |calls| && FieldsOf(Fetch(root, p)) == map[] && suffixes == Pow64(12)
    ensures var m := FieldsOf(Fetch(Pushed(root, p, Keys(s, calls), values), p));
      Ascending(listing) && (forall k :: k in listing <==> k in m) ==>
        && (listing == Keys(s, calls) <==> Clocked(calls) && Room(s, calls, suffixes))
        && (Clocked(calls) && Room(s, calls, suffixes) ==>
              forall i | 0 <= i < |listing| :: listing[i] in m && m[listing[i]] == values[i])
  {
    var keys := Keys(s, calls);
    var m := FieldsOf(Fetch(Pushed(root, p, keys, values), p));
    RunOrderExact(s, calls, suffixes);
    if Ascending(keys) {
      AscendingDistinct(keys);
      PushedMembers(root, p, keys, values);
      if Ascending(listing) && forall k :: k in listing <==> k in m {
        OneListing(listing, keys);
      }
    }
  }
}
