/** Lists of name/value pairs with map-like lookup and copy-on-write assignment, and their flattening. */
module MapLists {
  import opened Wrappers

  datatype Pair = Pair(name: string, val: string)

  function Names(ps: seq<Pair>): (r: seq<string>) {
    seq(|ps|, i requires 0 <= i < |ps| => ps[i].name)
  }

  /** The map a list stands for: the first pair with a name wins. */
  function ToMap(ps: seq<Pair>): map<string, string> {
    if ps == [] then map[] else ToMap(ps[1..])[ps[0].name := ps[0].val]
  }

  /** The list after one assignment: the first pair with the name is changed in place, or a pair is added. */
  function Assigned(ps: seq<Pair>, name: string, val: string): (r: seq<Pair>)
    ensures |ps| <= |r|
  {
    if ps == [] then [Pair(name, val)]
    else if ps[0].name == name then [ps[0].(val := val)] + ps[1..]
    else [ps[0]] + Assigned(ps[1..], name, val)
  }

  function AssignAll(ps: seq<Pair>, sets: seq<Pair>): seq<Pair>
    decreases |sets|
  {
    if sets == [] then ps else AssignAll(Assigned(ps, sets[0].name, sets[0].val), sets[1..])
  }

  function MapAssignAll(m: map<string, string>, sets: seq<Pair>): map<string, string>
    decreases |sets|
  {
    if sets == [] then m else MapAssignAll(m[sets[0].name := sets[0].val], sets[1..])
  }

  lemma {:induction false} MapHasNames(ps: seq<Pair>, name: string)
    ensures name in ToMap(ps) <==> name in Names(ps)
  {
    if ps == [] {
    } else {
      MapHasNames(ps[1..], name);
      assert Names(ps) == [ps[0].name] + Names(ps[1..]);
    }
  }

  /** A first match is what the map holds. */
  lemma {:induction false} FirstMatchWins(ps: seq<Pair>, i: nat)
    requires i < |ps| && forall j | 0 <= j < i :: ps[j].name != ps[i].name
    ensures ps[i].name in ToMap(ps) && ToMap(ps)[ps[i].name] == ps[i].val
  {
    if i == 0 {
    } else {
      FirstMatchWins(ps[1..], i - 1);
    }
  }

  /** One assignment is an update of the map. */
  lemma {:induction false} AssignedIsUpdate(ps: seq<Pair>, name: string, val: string)
    ensures ToMap(Assigned(ps, name, val)) == ToMap(ps)[name := val]
  {
    if ps == [] || ps[0].name == name {
    } else {
      AssignedIsUpdate(ps[1..], name, val);
    }
  }

  lemma NamesOfCons(p: Pair, ps: seq<Pair>)
    ensures Names([p] + ps) == [p.name] + Names(ps)
  {
  }

  /** An assignment keeps the names in order; a new one comes last. */
  lemma {:induction false} AssignedNames(ps: seq<Pair>, name: string, val: string)
    ensures Names(Assigned(ps, name, val)) == if name in Names(ps) then Names(ps) else Names(ps) + [name]
  {
    if ps == [] {
    } else {
      var p, rest := ps[0], ps[1..];
      assert ps == [p] + rest;
      NamesOfCons(p, rest);
      if p.name == name {
        NamesOfCons(p.(val := val), rest);
        assert Names(ps)[0] == name;
      } else {
        AssignedNames(rest, name, val);
        NamesOfCons(p, Assigned(rest, name, val));
        assert name in Names(ps) <==> name in Names(rest);
      }
    }
  }

  /**
   Any sequence of assignments acts on the list as on a map; names keep their order, new ones
   follow, and distinct names stay distinct.
   */
  lemma {:induction false} AssignAllRefinesMap(ps: seq<Pair>, sets: seq<Pair>)
    ensures ToMap(AssignAll(ps, sets)) == MapAssignAll(ToMap(ps), sets)
    ensures Names(ps) <= Names(AssignAll(ps, sets))
    ensures Distinct(Names(ps)) ==> Distinct(Names(AssignAll(ps, sets)))
    decreases |sets|
  {
    if sets == [] {
    } else {
      AssignedIsUpdate(ps, sets[0].name, sets[0].val);
      AssignedNames(ps, sets[0].name, sets[0].val);
      AssignAllRefinesMap(Assigned(ps, sets[0].name, sets[0].val), sets[1..]);
    }
  }

  lemma {:induction false} AssignedAt(ps: seq<Pair>, i: nat, val: string)
    requires i < |ps| && forall j | 0 <= j < i :: ps[j].name != ps[i].name
    ensures Assigned(ps, ps[i].name, val) == ps[i := ps[i].(val := val)]
  {
    if i == 0 {
    } else {
      AssignedAt(ps[1..], i - 1, val);
    }
  }

  lemma {:induction false} AssignedNew(ps: seq<Pair>, name: string, val: string)
    requires forall j | 0 <= j < |ps| :: ps[j].name != name
    ensures Assigned(ps, name, val) == ps + [Pair(name, val)]
  {
    if ps == [] {
    } else {
      AssignedNew(ps[1..], name, val);
    }
  }

  /** A variable of type MapList. Its slice may be shared with other variables. */
  class MapList {
    var pairs: array<Pair>

    constructor (pairs: array<Pair>)
      ensures this.pairs == pairs
    {
      this.pairs := pairs;
    }

    method Get(name: string) returns (r: Option<string>)
      ensures r.Some? <==> name in ToMap(pairs[..])
      ensures r.Some? ==> r.value == ToMap(pairs[..])[name]
    {
      for i := 0 to pairs.Length
        invariant forall j | 0 <= j < i :: pairs[j].name != name
      {
        if pairs[i].name == name {
          FirstMatchWins(pairs[..], i);
          return Some(pairs[i].val);
        }
      }
      MapHasNames(pairs[..], name);
      return None;
    }

    /** Points the variable at a fresh slice; no slice that exists already is written, so copies keep theirs. */
    method Set(name: string, val: string)
      modifies this
      ensures fresh(pairs)
      ensures pairs[..] == Assigned(old(pairs[..]), name, val)
    {
      ghost var before := pairs[..];
      var n := pairs.Length;
      for i := 0 to n
        invariant forall j | 0 <= j < i :: before[j].name != name
        invariant pairs == old(pairs) && pairs[..] == before
      {
        if pairs[i].name == name {
          var source := pairs;
          var clone := new Pair[n](k requires 0 <= k < n reads source => source[k]);
          clone[i] := clone[i].(val := val);
          pairs := clone;
          AssignedAt(before, i, val);
          return;
        }
      }
      var source := pairs;
      var longer := new Pair[n + 1](k reads source =>
        if 0 <= k < n && n == source.Length then source[k] else Pair(name, val));
      pairs := longer;
      AssignedNew(before, name, val);
      assert pairs[..] == before + [Pair(name, val)];
    }
  }

  /** Flattens the pairs for the exporter options; an error names the duplicate. */
  method Headers(list: MapList) returns (r: Result<map<string, string>, string>)
    ensures r.Success? <==> Distinct(Names(list.pairs[..]))
    ensures r.Success? ==> r.value == ToMap(list.pairs[..])
    ensures r.Failure? ==>
              exists i | 0 < i < list.pairs.Length ::
                && list.pairs[i].name == r.error && r.error in Names(list.pairs[..i])
                && Distinct(Names(list.pairs[..i]))
  {
    if list.pairs.Length == 0 {
      return Success(map[]);
    }
    var m: map<string, string> := map[];
    for i := 0 to list.pairs.Length
      invariant Distinct(Names(list.pairs[..i]))
      invariant m == ToMap(list.pairs[..i])
    {
      var pair := list.pairs[i];
      var seen := list.pairs[..i];
      MapHasNames(seen, pair.name);
      assert Names(list.pairs[..i + 1]) == Names(seen) + [pair.name];
      if pair.name in m {
        var all := Names(list.pairs[..]);
        var j :| 0 <= j < i && Names(seen)[j] == pair.name;
        assert all[j] == all[i];
        return Failure(pair.name);
      }
      m := m[pair.name := pair.val];
      assert list.pairs[..i + 1] == seen + [pair];
      assert forall j | 0 <= j < i :: Names(seen)[j] == seen[j].name;
      AssignedNew(seen, pair.name, pair.val);
      AssignedIsUpdate(seen, pair.name, pair.val);
    }
    assert list.pairs[..list.pairs.Length] == list.pairs[..];
    return Success(m);
  }
}
