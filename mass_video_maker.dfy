/**
 * src/modules/mass_video_maker.py: strip_ygoprodeck_url turns the query of a
 * database web link into an API query, and create_videos requests one video
 * per card of the API's answer.
 *
 * A parsed query (parse_qs's result) is a Python dict: parameter names with
 * their value lists, in insertion order, each name once. A dict
 * comprehension builds a new dict by inserting its items one after another; an
 * item whose key is already present overwrites that key's value where it stands.
 */
module MassVideos {
  import opened Common
  import opened CardSearch

  /** One query parameter: its name and its list of values. */
  type Param = (string, seq<string>)

  predicate HasKey(ps: seq<Param>, k: string)
  {
    exists i :: 0 <= i < |ps| && ps[i].0 == k
  }

  predicate UniqueKeys(ps: seq<Param>)
  {
    forall i, j :: 0 <= i < j < |ps| ==> ps[i].0 != ps[j].0
  }

  /** A dict from parameter names to value lists, in insertion order. */
  type Dict = ps: seq<Param> | UniqueKeys(ps) witness []

  lemma HasKeyTail(ps: seq<Param>, k: string)
    requires HasKey(ps, k) && ps[0].0 != k
    ensures HasKey(ps[1..], k)
  {
    var i :| 0 <= i < |ps| && ps[i].0 == k;
    assert ps[1..][i - 1].0 == k;
  }

  lemma HasKeyInit(ps: seq<Param>, k: string)
    requires HasKey(ps, k) && ps[|ps| - 1].0 != k
    ensures HasKey(ps[..|ps| - 1], k)
  {
    var i :| 0 <= i < |ps| && ps[i].0 == k;
    assert ps[..|ps| - 1][i].0 == k;
  }

  /** The position of the first parameter with the name. */
  function FirstKeyIndex(ps: seq<Param>, k: string): (i: nat)
    requires HasKey(ps, k)
    ensures i < |ps| && ps[i].0 == k
    ensures forall j :: 0 <= j < i ==> ps[j].0 != k
  {
    if ps[0].0 == k then 0 else HasKeyTail(ps, k); FirstKeyIndex(ps[1..], k) + 1
  }

  /** The position of the last parameter with the name. */
  function LastKeyIndex(ps: seq<Param>, k: string): (i: nat)
    requires HasKey(ps, k)
    ensures i < |ps| && ps[i].0 == k
    ensures forall j :: i < j < |ps| ==> ps[j].0 != k
  {
    if ps[|ps| - 1].0 == k then |ps| - 1 else HasKeyInit(ps, k); LastKeyIndex(ps[..|ps| - 1], k)
  }

  lemma FirstKeyIndexIs(ps: seq<Param>, k: string, i: nat)
    requires i < |ps| && ps[i].0 == k && forall j :: 0 <= j < i ==> ps[j].0 != k
    ensures FirstKeyIndex(ps, k) == i
  {
    var f := FirstKeyIndex(ps, k);
    assert !(f < i) && !(i < f);
  }

  lemma LastKeyIndexIs(ps: seq<Param>, k: string, i: nat)
    requires i < |ps| && ps[i].0 == k && forall j :: i < j < |ps| ==> ps[j].0 != k
    ensures LastKeyIndex(ps, k) == i
  {
    var l := LastKeyIndex(ps, k);
    assert !(l < i) && !(i < l);
  }

  /** In a dict the first and the last entry of a name are its only entry. */
  lemma DictIndex(d: Dict, k: string, i: nat)
    requires i < |d| && d[i].0 == k
    ensures HasKey(d, k) && FirstKeyIndex(d, k) == i && LastKeyIndex(d, k) == i
  {
    FirstKeyIndexIs(d, k, i);
    LastKeyIndexIs(d, k, i);
  }

  /** d[k]: the value list stored under a name. */
  function Lookup(d: Dict, k: string): seq<string>
    requires HasKey(d, k)
  {
    d[FirstKeyIndex(d, k)].1
  }

  /** d[k] = v: overwrite the value where the name stands, or append the name. */
  function Put(d: Dict, k: string, v: seq<string>): (r: Dict)
  {
    if HasKey(d, k) then
      var i := FirstKeyIndex(d, k);
      var r := d[i := (k, v)];
      assert forall j :: 0 <= j < |d| ==> r[j].0 == d[j].0;
      r
    else
      var r := d + [(k, v)];
      assert forall j :: 0 <= j < |d| ==> r[j].0 == d[j].0 && d[j].0 != k;
      r
  }

  /** Inserting keeps every other name where it is, with its value, and puts the new value under k. */
  lemma PutFacts(d: Dict, k: string, v: seq<string>, x: string)
    ensures HasKey(Put(d, k, v), x) <==> HasKey(d, x) || x == k
    ensures var r := Put(d, k, v);
            HasKey(r, k) && FirstKeyIndex(r, k) == (if HasKey(d, k) then FirstKeyIndex(d, k) else |d|) && Lookup(r, k) == v
    ensures x != k && HasKey(d, x) ==>
            FirstKeyIndex(Put(d, k, v), x) == FirstKeyIndex(d, x) && Lookup(Put(d, k, v), x) == Lookup(d, x)
  {
    var r := Put(d, k, v);
    assert forall j :: 0 <= j < |d| ==> j < |r| && r[j].0 == d[j].0;
    if HasKey(d, k) {
      DictIndex(r, k, FirstKeyIndex(d, k));
    } else {
      DictIndex(r, k, |d|);
    }
    if HasKey(r, x) && x != k {
      var i := FirstKeyIndex(r, x);
      assert i < |d| && d[i].0 == x;
    }
    if x != k && HasKey(d, x) {
      DictIndex(r, x, FirstKeyIndex(d, x));
    }
  }

  /** A dict comprehension: the dict that inserting the items in order builds. */
  function Build(ps: seq<Param>): Dict
    decreases |ps|
  {
    if ps == [] then [] else Put(Build(ps[..|ps| - 1]), ps[|ps| - 1].0, ps[|ps| - 1].1)
  }

  /** How a name's first and last positions change when one item is appended. */
  lemma SnocIndices(ps: seq<Param>, x: string)
    requires ps != []
    ensures var init := ps[..|ps| - 1];
            (HasKey(ps, x) <==> HasKey(init, x) || ps[|ps| - 1].0 == x) &&
            (HasKey(init, x) ==> FirstKeyIndex(ps, x) == FirstKeyIndex(init, x)) &&
            (!HasKey(init, x) && ps[|ps| - 1].0 == x ==> FirstKeyIndex(ps, x) == |ps| - 1) &&
            (ps[|ps| - 1].0 == x ==> LastKeyIndex(ps, x) == |ps| - 1) &&
            (ps[|ps| - 1].0 != x && HasKey(init, x) ==> LastKeyIndex(ps, x) == LastKeyIndex(init, x))
  {
    var init := ps[..|ps| - 1];
    if HasKey(ps, x) && ps[|ps| - 1].0 != x {
      HasKeyInit(ps, x);
    }
    if HasKey(init, x) {
      var i := FirstKeyIndex(init, x);
      assert ps[i] == init[i];
      FirstKeyIndexIs(ps, x, i);
      if ps[|ps| - 1].0 != x {
        var l := LastKeyIndex(init, x);
        assert ps[l] == init[l];
        LastKeyIndexIs(ps, x, l);
      }
    }
    if ps[|ps| - 1].0 == x {
      LastKeyIndexIs(ps, x, |ps| - 1);
      if !HasKey(init, x) {
        assert forall j :: 0 <= j < |ps| - 1 ==> ps[j] == init[j];
        FirstKeyIndexIs(ps, x, |ps| - 1);
      }
    }
  }

  /**
   * The built dict holds exactly the items' names, each with the value of
   * its last item, at the position of its first item.
   */
  lemma {:induction false} BuildFacts(ps: seq<Param>, x: string)
    ensures HasKey(Build(ps), x) <==> HasKey(ps, x)
    ensures HasKey(ps, x) ==> Lookup(Build(ps), x) == ps[LastKeyIndex(ps, x)].1
    decreases |ps|
  {
    if ps != [] {
      var init := ps[..|ps| - 1];
      var last := ps[|ps| - 1];
      BuildFacts(init, x);
      PutFacts(Build(init), last.0, last.1, x);
      SnocIndices(ps, x);
    }
  }

  /** Names keep the order of their first items. */
  lemma {:induction false} BuildOrder(ps: seq<Param>, a: string, b: string)
    requires HasKey(ps, a) && HasKey(ps, b)
    ensures HasKey(Build(ps), a) && HasKey(Build(ps), b) &&
            (FirstKeyIndex(Build(ps), a) < FirstKeyIndex(Build(ps), b) <==>
            FirstKeyIndex(ps, a) < FirstKeyIndex(ps, b))
    decreases |ps|
  {
    BuildFacts(ps, a);
    BuildFacts(ps, b);
    var init := ps[..|ps| - 1];
    var last := ps[|ps| - 1];
    var d := Build(init);
    SnocIndices(ps, a);
    SnocIndices(ps, b);
    BuildFacts(init, a);
    BuildFacts(init, b);
    PutFacts(d, last.0, last.1, a);
    PutFacts(d, last.0, last.1, b);
    if HasKey(init, a) && HasKey(init, b) {
      BuildOrder(init, a, b);
    } else if HasKey(init, a) {
      assert FirstKeyIndex(d, a) < |d|;
    } else if HasKey(init, b) {
      assert FirstKeyIndex(d, b) < |d|;
    }
  }

  /** A comprehension over items with distinct names rebuilds them unchanged. */
  lemma {:induction false} BuildOfUnique(ps: seq<Param>)
    requires UniqueKeys(ps)
    ensures Build(ps) == ps
    decreases |ps|
  {
    if ps != [] {
      var init := ps[..|ps| - 1];
      var last := ps[|ps| - 1];
      BuildOfUnique(init);
      assert init + [last] == ps;
    }
  }

  // ---------------------------------------------------------------------------
  // strip_ygoprodeck_url

  /** ignored_params */
  predicate IsIgnored(k: string)
  {
    k == "num" || k == "offset"
  }

  /** The items of the first comprehension: the parameters that are not ignored, in order. */
  function KeepWanted(ps: seq<Param>): seq<Param>
  {
    if ps == [] then []
    else (if IsIgnored(ps[0].0) then [] else [ps[0]]) + KeepWanted(ps[1..])
  }

  /** Filtering distributes over concatenation. */
  lemma {:induction false} KeepWantedAppend(a: seq<Param>, b: seq<Param>)
    ensures KeepWanted(a + b) == KeepWanted(a) + KeepWanted(b)
  {
    if a == [] {
      assert a + b == b;
    } else {
      assert (a + b)[1..] == a[1..] + b;
      KeepWantedAppend(a[1..], b);
    }
  }

  /** The filter keeps exactly the parameters that are not ignored. */
  lemma {:induction false} KeepWantedMembers(ps: seq<Param>)
    ensures forall p :: p in KeepWanted(ps) <==> p in ps && !IsIgnored(p.0)
  {
    if ps != [] {
      KeepWantedMembers(ps[1..]);
      assert ps == [ps[0]] + ps[1..];
    }
  }

  lemma HasKeyMember(ps: seq<Param>, k: string)
    ensures HasKey(ps, k) <==> exists p :: p in ps && p.0 == k
  {
    if HasKey(ps, k) {
      var i :| 0 <= i < |ps| && ps[i].0 == k;
      assert ps[i] in ps;
    }
  }

  lemma KeepWantedKeys(ps: seq<Param>, x: string)
    ensures HasKey(KeepWanted(ps), x) <==> HasKey(ps, x) && !IsIgnored(x)
  {
    KeepWantedMembers(ps);
    HasKeyMember(ps, x);
    HasKeyMember(KeepWanted(ps), x);
  }

  /** Filtering a dict leaves the names distinct. */
  lemma {:induction false} KeepWantedUnique(ps: seq<Param>)
    requires UniqueKeys(ps)
    ensures UniqueKeys(KeepWanted(ps))
  {
    if ps != [] {
      var t := ps[1..];
      KeepWantedUnique(t);
      if !IsIgnored(ps[0].0) {
        assert forall j :: 0 <= j < |t| ==> t[j] == ps[j + 1];
        KeepWantedKeys(t, ps[0].0);
        assert KeepWanted(ps) == [ps[0]] + KeepWanted(t);
      }
    }
  }

  /** A kept parameter lands after the kept parameters before it. */
  lemma KeepWantedPosition(d: Dict, a: string)
    requires HasKey(d, a) && !IsIgnored(a)
    ensures var i := FirstKeyIndex(d, a);
            var k := |KeepWanted(d[..i])|;
            k < |KeepWanted(d)| && KeepWanted(d)[k] == d[i] &&
            HasKey(KeepWanted(d), a) && FirstKeyIndex(KeepWanted(d), a) == k
  {
    var i := FirstKeyIndex(d, a);
    assert d == d[..i] + [d[i]] + d[i + 1..];
    KeepWantedAppend(d[..i] + [d[i]], d[i + 1..]);
    KeepWantedAppend(d[..i], [d[i]]);
    assert KeepWanted([d[i]]) == [d[i]];
    KeepWantedUnique(d);
    DictIndex(KeepWanted(d), a, |KeepWanted(d[..i])|);
  }

  lemma KeptPrefixGrows(ps: seq<Param>, i: nat, j: nat)
    requires i < j <= |ps| && !IsIgnored(ps[i].0)
    ensures |KeepWanted(ps[..i])| < |KeepWanted(ps[..j])|
  {
    assert ps[..j] == ps[..i] + [ps[i]] + ps[i + 1..j];
    KeepWantedAppend(ps[..i] + [ps[i]], ps[i + 1..j]);
    KeepWantedAppend(ps[..i], [ps[i]]);
    assert KeepWanted([ps[i]]) == [ps[i]];
  }

  /** The kept parameters keep their relative order. */
  lemma KeepWantedOrder(d: Dict, a: string, b: string)
    requires HasKey(d, a) && !IsIgnored(a) && HasKey(d, b) && !IsIgnored(b)
    ensures HasKey(KeepWanted(d), a) && HasKey(KeepWanted(d), b) &&
            (FirstKeyIndex(KeepWanted(d), a) < FirstKeyIndex(KeepWanted(d), b) <==>
             FirstKeyIndex(d, a) < FirstKeyIndex(d, b))
  {
    KeepWantedPosition(d, a);
    KeepWantedPosition(d, b);
    var i := FirstKeyIndex(d, a);
    var j := FirstKeyIndex(d, b);
    if i < j {
      KeptPrefixGrows(d, i, j);
    } else if j < i {
      KeptPrefixGrows(d, j, i);
    }
  }

  /** The first comprehension: {k: v for k, v in query_params.items() if k not in ignored_params}. */
  function FilterIgnored(d: Dict): Dict
  {
    Build(KeepWanted(d))
  }

  /** Its items have distinct names, so the comprehension is the plain filter. */
  lemma FilterIsKeepWanted(d: Dict)
    ensures FilterIgnored(d) == KeepWanted(d)
  {
    KeepWantedUnique(d);
    BuildOfUnique(KeepWanted(d));
  }

  /** 'fname' if k == 'name' else k */
  function RenameKey(k: string): string
  {
    if k == "name" then "fname" else k
  }

  /** The items of the second comprehension. */
  function RenameKeys(ps: seq<Param>): (r: seq<Param>)
    ensures |r| == |ps|
    ensures forall i :: 0 <= i < |ps| ==> r[i] == (RenameKey(ps[i].0), ps[i].1)
  {
    seq(|ps|, i requires 0 <= i < |ps| => (RenameKey(ps[i].0), ps[i].1))
  }

  /** strip_ygoprodeck_url up to urlencode: the two comprehensions in turn. */
  function StripQuery(d: Dict): Dict
  {
    Build(RenameKeys(FilterIgnored(d)))
  }

  /** Renaming keeps every name other than "name" and "fname" at its positions. */
  lemma RenamedOther(ps: seq<Param>, x: string)
    requires x != "name" && x != "fname"
    ensures HasKey(RenameKeys(ps), x) <==> HasKey(ps, x)
    ensures HasKey(ps, x) ==>
              HasKey(RenameKeys(ps), x) &&
              FirstKeyIndex(RenameKeys(ps), x) == FirstKeyIndex(ps, x) &&
              LastKeyIndex(RenameKeys(ps), x) == LastKeyIndex(ps, x)
  {
    var r := RenameKeys(ps);
    assert forall i :: 0 <= i < |ps| ==> (r[i].0 == x <==> ps[i].0 == x);
    if HasKey(ps, x) {
      FirstKeyIndexIs(r, x, FirstKeyIndex(ps, x));
      LastKeyIndexIs(r, x, LastKeyIndex(ps, x));
    }
  }

  /** The two names that end up as "fname". */
  predicate IsNameKey(k: string)
  {
    k == "name" || k == "fname"
  }

  lemma RenamedKeyAt(ps: seq<Param>, i: nat)
    requires i < |ps|
    ensures RenameKeys(ps)[i].0 != "name"
    ensures RenameKeys(ps)[i].0 == "fname" <==> IsNameKey(ps[i].0)
  {
  }

  /** After renaming no "name" is left, and "fname" is there when either name was. */
  lemma RenamedFnameKeys(ps: seq<Param>)
    ensures !HasKey(RenameKeys(ps), "name")
    ensures HasKey(RenameKeys(ps), "fname") <==> HasKey(ps, "name") || HasKey(ps, "fname")
  {
    var r := RenameKeys(ps);
    forall i | 0 <= i < |ps| ensures r[i].0 != "name" && (r[i].0 == "fname" <==> IsNameKey(ps[i].0)) {
      RenamedKeyAt(ps, i);
    }
  }

  /** The first "fname" after renaming is the first of the two names. */
  lemma RenamedFnameFirst(ps: seq<Param>, i: nat)
    requires i < |ps| && IsNameKey(ps[i].0)
    requires forall j :: 0 <= j < i ==> !IsNameKey(ps[j].0)
    ensures HasKey(RenameKeys(ps), "fname") && FirstKeyIndex(RenameKeys(ps), "fname") == i
  {
    var r := RenameKeys(ps);
    forall j | 0 <= j <= i ensures r[j].0 == "fname" <==> IsNameKey(ps[j].0) {
      RenamedKeyAt(ps, j);
    }
    FirstKeyIndexIs(r, "fname", i);
  }

  /** The last "fname" after renaming is the last of the two names. */
  lemma RenamedFnameLast(ps: seq<Param>, i: nat)
    requires i < |ps| && IsNameKey(ps[i].0)
    requires forall j :: i < j < |ps| ==> !IsNameKey(ps[j].0)
    ensures HasKey(RenameKeys(ps), "fname") && LastKeyIndex(RenameKeys(ps), "fname") == i
  {
    var r := RenameKeys(ps);
    forall j | i <= j < |ps| ensures r[j].0 == "fname" <==> IsNameKey(ps[j].0) {
      RenamedKeyAt(ps, j);
    }
    LastKeyIndexIs(r, "fname", i);
  }

  /** In a dict, each of the two names occurs at most once. */
  lemma NameKeyPositions(d: Dict, j: nat)
    requires j < |d| && IsNameKey(d[j].0)
    ensures (d[j].0 == "name" && HasKey(d, "name") && FirstKeyIndex(d, "name") == j) ||
            (d[j].0 == "fname" && HasKey(d, "fname") && FirstKeyIndex(d, "fname") == j)
  {
    DictIndex(d, d[j].0, j);
  }

  /** The stripped query has no "num", "offset" or "name" parameter. */
  lemma StripRemovesParams(d: Dict)
    ensures !HasKey(StripQuery(d), "num") && !HasKey(StripQuery(d), "offset") && !HasKey(StripQuery(d), "name")
  {
    var f := FilterIgnored(d);
    var r := RenameKeys(f);
    FilterIsKeepWanted(d);
    KeepWantedKeys(d, "num");
    KeepWantedKeys(d, "offset");
    RenamedOther(f, "num");
    RenamedOther(f, "offset");
    RenamedFnameKeys(f);
    BuildFacts(r, "num");
    BuildFacts(r, "offset");
    BuildFacts(r, "name");
  }

  /** Every other parameter survives with its values. */
  lemma StripKeepsOtherParams(d: Dict, x: string)
    requires !IsIgnored(x) && x != "name" && x != "fname"
    ensures HasKey(StripQuery(d), x) <==> HasKey(d, x)
    ensures HasKey(d, x) ==> HasKey(StripQuery(d), x) && Lookup(StripQuery(d), x) == Lookup(d, x)
  {
    var f := FilterIgnored(d);
    var r := RenameKeys(f);
    FilterIsKeepWanted(d);
    KeepWantedKeys(d, x);
    RenamedOther(f, x);
    BuildFacts(r, x);
    if HasKey(d, x) {
      KeepWantedPosition(d, x);
      DictIndex(f, x, FirstKeyIndex(f, x));
    }
  }

  /** The other parameters keep their relative order. */
  lemma StripKeepsOrder(d: Dict, a: string, b: string)
    requires !IsIgnored(a) && a != "name" && a != "fname" && HasKey(d, a)
    requires !IsIgnored(b) && b != "name" && b != "fname" && HasKey(d, b)
    ensures HasKey(StripQuery(d), a) && HasKey(StripQuery(d), b) &&
            (FirstKeyIndex(StripQuery(d), a) < FirstKeyIndex(StripQuery(d), b) <==>
             FirstKeyIndex(d, a) < FirstKeyIndex(d, b))
  {
    StripKeepsOtherParams(d, a);
    StripKeepsOtherParams(d, b);
    var f := FilterIgnored(d);
    var r := RenameKeys(f);
    FilterIsKeepWanted(d);
    KeepWantedOrder(d, a, b);
    RenamedOther(f, a);
    RenamedOther(f, b);
    BuildOrder(r, a, b);
  }

  /** "fname" is in the stripped query exactly when "name" or "fname" was in the link. */
  lemma StripHasFname(d: Dict)
    ensures HasKey(StripQuery(d), "fname") <==> HasKey(d, "name") || HasKey(d, "fname")
  {
    var f := FilterIgnored(d);
    FilterIsKeepWanted(d);
    KeepWantedKeys(d, "name");
    KeepWantedKeys(d, "fname");
    RenamedFnameKeys(f);
    BuildFacts(RenameKeys(f), "fname");
  }

  /** In a dict with only one of the two names, the renamed "fname" stands where that name stood. */
  lemma RenamedFnameSingle(f: Dict, key: string)
    requires IsNameKey(key) && HasKey(f, key)
    requires !HasKey(f, if key == "name" then "fname" else "name")
    ensures HasKey(RenameKeys(f), "fname") &&
            FirstKeyIndex(RenameKeys(f), "fname") == FirstKeyIndex(f, key) &&
            LastKeyIndex(RenameKeys(f), "fname") == FirstKeyIndex(f, key)
  {
    var k := FirstKeyIndex(f, key);
    forall j | 0 <= j < |f| && j != k ensures !IsNameKey(f[j].0) {
      if IsNameKey(f[j].0) {
        NameKeyPositions(f, j);
      }
    }
    RenamedFnameFirst(f, k);
    RenamedFnameLast(f, k);
  }

  /** In a dict with both names, the renamed "fname" runs from the earlier of them to the later. */
  lemma RenamedFnameSpan(f: Dict)
    requires HasKey(f, "name") && HasKey(f, "fname")
    ensures var kn := FirstKeyIndex(f, "name");
            var kf := FirstKeyIndex(f, "fname");
            HasKey(RenameKeys(f), "fname") &&
            FirstKeyIndex(RenameKeys(f), "fname") == (if kn < kf then kn else kf) &&
            LastKeyIndex(RenameKeys(f), "fname") == (if kn < kf then kf else kn)
  {
    var kn := FirstKeyIndex(f, "name");
    var kf := FirstKeyIndex(f, "fname");
    forall j | 0 <= j < |f| && j != kn && j != kf ensures !IsNameKey(f[j].0) {
      if IsNameKey(f[j].0) {
        NameKeyPositions(f, j);
      }
    }
    RenamedFnameFirst(f, if kn < kf then kn else kf);
    RenamedFnameLast(f, if kn < kf then kf else kn);
  }

  /** A link with only one of "name" and "fname" passes that one's values on as "fname". */
  lemma StripRenamesName(d: Dict, key: string)
    requires IsNameKey(key) && HasKey(d, key)
    requires !HasKey(d, if key == "name" then "fname" else "name")
    ensures HasKey(StripQuery(d), "fname") && Lookup(StripQuery(d), "fname") == Lookup(d, key)
  {
    var f := FilterIgnored(d);
    FilterIsKeepWanted(d);
    KeepWantedKeys(d, if key == "name" then "fname" else "name");
    KeepWantedPosition(d, key);
    RenamedFnameSingle(f, key);
    BuildFacts(RenameKeys(f), "fname");
  }

  /** A link with both: "fname" carries the values of whichever of the two came later. */
  lemma StripMergesNames(d: Dict)
    requires HasKey(d, "name") && HasKey(d, "fname")
    ensures HasKey(StripQuery(d), "fname") &&
            Lookup(StripQuery(d), "fname") ==
              (if FirstKeyIndex(d, "name") < FirstKeyIndex(d, "fname") then Lookup(d, "fname") else Lookup(d, "name"))
  {
    var f := FilterIgnored(d);
    FilterIsKeepWanted(d);
    KeepWantedPosition(d, "name");
    KeepWantedPosition(d, "fname");
    KeepWantedOrder(d, "name", "fname");
    RenamedFnameSpan(f);
    BuildFacts(RenameKeys(f), "fname");
  }

  /** After renaming a dict with both names, "fname" comes before exactly what either name came before. */
  lemma RenamedFnameBefore(f: Dict, a: string)
    requires HasKey(f, "name") && HasKey(f, "fname")
    requires a != "name" && a != "fname" && HasKey(f, a)
    ensures HasKey(RenameKeys(f), "fname") && HasKey(RenameKeys(f), a) &&
            (FirstKeyIndex(RenameKeys(f), "fname") < FirstKeyIndex(RenameKeys(f), a) <==>
             FirstKeyIndex(f, "name") < FirstKeyIndex(f, a) || FirstKeyIndex(f, "fname") < FirstKeyIndex(f, a))
  {
    RenamedFnameSpan(f);
    RenamedOther(f, a);
  }

  /** With both names in the link, "fname" takes the place of the earlier one. */
  lemma StripFnamePosition(d: Dict, a: string)
    requires HasKey(d, "name") && HasKey(d, "fname")
    requires !IsIgnored(a) && a != "name" && a != "fname" && HasKey(d, a)
    ensures HasKey(StripQuery(d), "fname") && HasKey(StripQuery(d), a) &&
            (FirstKeyIndex(StripQuery(d), "fname") < FirstKeyIndex(StripQuery(d), a) <==>
             FirstKeyIndex(d, "name") < FirstKeyIndex(d, a) || FirstKeyIndex(d, "fname") < FirstKeyIndex(d, a))
  {
    var f := FilterIgnored(d);
    FilterIsKeepWanted(d);
    KeepWantedOrder(d, "name", a);
    KeepWantedOrder(d, "fname", a);
    RenamedFnameBefore(f, a);
    BuildOrder(RenameKeys(f), "fname", a);
  }

  /** Stripping an already stripped query changes nothing. */
  lemma StripIdempotent(d: Dict)
    ensures StripQuery(StripQuery(d)) == StripQuery(d)
  {
    var s := StripQuery(d);
    StripRemovesParams(d);
    NothingIgnored(s);
    FilterIsKeepWanted(s);
    assert RenameKeys(s) == s;
    BuildOfUnique(s);
  }

  lemma {:induction false} NothingIgnored(ps: seq<Param>)
    requires !HasKey(ps, "num") && !HasKey(ps, "offset")
    ensures KeepWanted(ps) == ps
  {
    if ps != [] {
      assert ps[0].0 != "num" && ps[0].0 != "offset";
      assert forall j :: 0 <= j < |ps[1..]| ==> ps[1..][j] == ps[j + 1];
      NothingIgnored(ps[1..]);
      assert ps == [ps[0]] + ps[1..];
    }
  }

  // ---------------------------------------------------------------------------
  // The API URL and create_videos

  const ApiPrefix: string := "https://db.ygoprodeck.com/api/v7/cardinfo.php?"

  /** urlencode(params, doseq=True) without percent-encoding: one name=value per value, joined by '&'. */
  function Encode(d: seq<Param>): string
  {
    JoinAmpersand(Pairs(d))
  }

  function Pairs(d: seq<Param>): seq<string>
  {
    if d == [] then [] else seq(|d[0].1|, i requires 0 <= i < |d[0].1| => d[0].0 + "=" + d[0].1[i]) + Pairs(d[1..])
  }

  function JoinAmpersand(items: seq<string>): string
  {
    if items == [] then "" else if |items| == 1 then items[0] else items[0] + "&" + JoinAmpersand(items[1..])
  }

  /** api_url_prefix + strip_ygoprodeck_url(web_db_url), on the link's parsed query. */
  function ApiUrl(query: Dict): (url: string)
    ensures |url| >= |ApiPrefix| && url[..|ApiPrefix|] == ApiPrefix && url[|ApiPrefix|..] == Encode(StripQuery(query))
  {
    ApiPrefix + Encode(StripQuery(query))
  }

  /** The arguments create_videos passes to YugiohVideoMaker for one card. */
  datatype VideoRequest = VideoRequest(cardName: string, cardEffect: string, cardReadableType: string, cardImage: string)

  /**
   * The fields of one card that create_videos passes on. card_img receives
   * the card's first image set, card["card_images"][0]; the image set is
   * represented here by its image URL.
   */
  function RequestFor(card: Card): VideoRequest
    requires card.imageUrls != []
  {
    VideoRequest(card.name, card.desc, card.humanReadableCardType, card.imageUrls[0])
  }

  /** The position of the first card without an image entry, or the list's length. */
  function FirstImageless(data: seq<Card>): (k: nat)
    ensures k <= |data|
    ensures forall i :: 0 <= i < k ==> data[i].imageUrls != []
    ensures k < |data| ==> data[k].imageUrls == []
  {
    if data == [] then 0
    else if data[0].imageUrls == [] then 0
    else FirstImageless(data[1..]) + 1
  }

  /**
   * create_videos on the parsed query of the pasted link and the API's answer:
   * one video request per card, in order, until a card without an image entry
   * raises IndexError; nothing when the answer has no "data".
   */
  method CreateVideos(query: Dict, response: Response)
      returns (apiUrl: string, requests: seq<VideoRequest>, err: Option<Exception>)
    ensures apiUrl == ApiUrl(query)
    ensures response.data.None? ==> requests == [] && err.None?
    ensures response.data.Some? ==>
              var data := response.data.value;
              var k := FirstImageless(data);
              |requests| == k &&
              (forall i :: 0 <= i < k ==> requests[i] == RequestFor(data[i])) &&
              (err.Some? <==> k < |data|) &&
              (err.Some? ==> err.value == IndexError)
  {
    apiUrl := ApiPrefix + Encode(StripQuery(query));
    requests := [];
    err := None;
    if response.data.Some? {
      var data := response.data.value;
      for i := 0 to |data|
        invariant |requests| == i && i <= FirstImageless(data)
        invariant forall j :: 0 <= j < i ==> requests[j] == RequestFor(data[j])
        invariant err.None?
      {
        var card := data[i];
        if card.imageUrls == [] {
          err := Some(IndexError);
          return;
        }
        requests := requests + [RequestFor(card)];
      }
    }
  }

  /** When every card has an image, exactly one video is requested per card, in the order of the list. */
  lemma OneRequestPerCard(data: seq<Card>)
    requires forall i :: 0 <= i < |data| ==> data[i].imageUrls != []
    ensures FirstImageless(data) == |data|
  {
  }
}
