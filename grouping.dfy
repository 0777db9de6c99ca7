/**
 * The grouping loop shared by the bar chart, the pie chart and the analysis panel:
 * for every reading, in list order, valuesMap.computeIfAbsent(sensor, new list).add(value).
 * The map is modelled as a Dafny map from sensor id to the values appended so far.
 */
module Grouping {
  import opened Loader

  /** The values of the readings of one sensor, in input order. */
  function SensorValues(rs: seq<Reading>, s: string): seq<real>
  {
    if rs == [] then []
    else SensorValues(rs[..|rs| - 1], s)
         + (if rs[|rs| - 1].sensor == s then [rs[|rs| - 1].value] else [])
  }

  /** The sensor ids that occur in the readings. */
  function Sensors(rs: seq<Reading>): set<string>
  {
    if rs == [] then {} else Sensors(rs[..|rs| - 1]) + {rs[|rs| - 1].sensor}
  }

  /** The map the grouping loop leaves behind. */
  function Groups(rs: seq<Reading>): map<string, seq<real>>
  {
    map s | s in Sensors(rs) :: SensorValues(rs, s)
  }

  /** The indices, ascending, of the readings of one sensor. */
  function Positions(rs: seq<Reading>, s: string): (ps: seq<nat>)
    ensures forall k :: 0 <= k < |ps| ==> ps[k] < |rs| && rs[ps[k]].sensor == s
    ensures forall k, l :: 0 <= k < l < |ps| ==> ps[k] < ps[l]
  {
    if rs == [] then []
    else Positions(rs[..|rs| - 1], s) + (if rs[|rs| - 1].sensor == s then [|rs| - 1] else [])
  }

  /** The computeIfAbsent(...).add(...) loop. */
  method GroupBySensor(data: seq<Reading>) returns (valuesMap: map<string, seq<real>>)
    ensures valuesMap == Groups(data)
    ensures valuesMap.Keys == Sensors(data)
    ensures forall s :: s in valuesMap ==> valuesMap[s] == SensorValues(data, s) && valuesMap[s] != []
  {
    valuesMap := map[];
    for i := 0 to |data|
      invariant valuesMap == Groups(data[..i])
    {
      var sd := data[i];
      if sd.sensor !in valuesMap {
        valuesMap := valuesMap[sd.sensor := []];
      }
      valuesMap := valuesMap[sd.sensor := valuesMap[sd.sensor] + [sd.value]];
      assert data[..i + 1] == data[..i] + [sd];
      GroupsSnoc(data[..i], sd);
    }
    assert data[..|data|] == data;
    GroupsNonEmpty(data);
  }

  // ----- Lemmas -------------------------------------------------------------------

  /** A sensor id occurs in the readings exactly when some reading carries it. */
  lemma {:induction false} SensorsMembership(rs: seq<Reading>, s: string)
    ensures s in Sensors(rs) <==> exists i :: 0 <= i < |rs| && rs[i].sensor == s
  {
    if rs != [] {
      var init := rs[..|rs| - 1];
      SensorsMembership(init, s);
      assert forall i :: 0 <= i < |init| ==> init[i] == rs[i];
      if s in Sensors(init) {
        var i :| 0 <= i < |init| && init[i].sensor == s;
        assert rs[i].sensor == s;
      }
    }
  }

  /** A sensor has no values exactly when it has no readings. */
  lemma {:induction false} SensorValuesEmptyIff(rs: seq<Reading>, s: string)
    ensures SensorValues(rs, s) == [] <==> s !in Sensors(rs)
  {
    if rs != [] {
      SensorValuesEmptyIff(rs[..|rs| - 1], s);
    }
  }

  /** Every key of the grouping map has at least one value. */
  lemma GroupsNonEmpty(rs: seq<Reading>)
    ensures forall s :: s in Groups(rs) ==> Groups(rs)[s] != []
  {
    forall s | s in Groups(rs) ensures Groups(rs)[s] != [] {
      SensorValuesEmptyIff(rs, s);
    }
  }

  /** No readings, no groups. */
  lemma GroupsOfNothing()
    ensures Groups([]) == map[]
  {
  }

  /** Grouping two lists one after the other concatenates each sensor's values. */
  lemma {:induction false} SensorValuesAppend(a: seq<Reading>, b: seq<Reading>, s: string)
    ensures SensorValues(a + b, s) == SensorValues(a, s) + SensorValues(b, s)
    decreases |b|
  {
    if b == [] {
      assert a + b == a;
    } else {
      var init := b[..|b| - 1];
      assert (a + b)[..|a + b| - 1] == a + init;
      assert (a + b)[|a + b| - 1] == b[|b| - 1];
      SensorValuesAppend(a, init, s);
    }
  }

  /**
   * Each group is the subsequence of values of exactly that sensor's readings:
   * its k-th value is the value of the k-th such reading, and every such reading is used.
   */
  lemma {:induction false} SensorValuesSubsequence(rs: seq<Reading>, s: string)
    ensures |SensorValues(rs, s)| == |Positions(rs, s)|
    ensures forall k :: 0 <= k < |Positions(rs, s)| ==> SensorValues(rs, s)[k] == rs[Positions(rs, s)[k]].value
    ensures forall i :: 0 <= i < |rs| && rs[i].sensor == s ==> i in Positions(rs, s)
  {
    if rs != [] {
      var init := rs[..|rs| - 1];
      SensorValuesSubsequence(init, s);
      assert forall i :: 0 <= i < |init| ==> init[i] == rs[i];
    }
  }

  /** One more reading: its value is appended to its sensor's group, created if absent. */
  lemma GroupsSnoc(rs: seq<Reading>, r: Reading)
    ensures Groups(rs + [r]) == Groups(rs)[r.sensor :=
              (if r.sensor in Groups(rs) then Groups(rs)[r.sensor] else []) + [r.value]]
  {
    var rs' := rs + [r];
    assert rs'[..|rs'| - 1] == rs;
    assert rs'[|rs'| - 1] == r;
    SensorValuesEmptyIff(rs, r.sensor);
    var g := Groups(rs)[r.sensor := (if r.sensor in Groups(rs) then Groups(rs)[r.sensor] else []) + [r.value]];
    assert Groups(rs').Keys == g.Keys;
    forall s | s in g ensures Groups(rs')[s] == g[s] {
    }
  }

  // ----- Group sizes --------------------------------------------------------------

  /** No sensor id listed twice. */
  predicate Distinct(ks: seq<string>)
  {
    forall i, j :: 0 <= i < j < |ks| ==> ks[i] != ks[j]
  }

  /** The sizes of the groups named by ks, added up. */
  function TotalSize(groups: map<string, seq<real>>, ks: seq<string>): nat
    requires forall j :: 0 <= j < |ks| ==> ks[j] in groups
  {
    if ks == [] then 0 else |groups[ks[0]]| + TotalSize(groups, ks[1..])
  }

  /** The number of readings belonging to the sensors named by ks. */
  function Count(rs: seq<Reading>, ks: seq<string>): nat
  {
    if ks == [] then 0 else |SensorValues(rs, ks[0])| + Count(rs, ks[1..])
  }

  /** Listing every key once, the group sizes add up to the number of readings. */
  lemma GroupSizesSum(rs: seq<Reading>, ks: seq<string>)
    requires Distinct(ks)
    requires forall j :: 0 <= j < |ks| ==> ks[j] in Groups(rs)
    requires forall s :: s in Groups(rs) ==> s in ks
    ensures TotalSize(Groups(rs), ks) == |rs|
  {
    TotalSizeIsCount(rs, ks);
    CountAll(rs, ks);
  }

  lemma {:induction false} TotalSizeIsCount(rs: seq<Reading>, ks: seq<string>)
    requires forall j :: 0 <= j < |ks| ==> ks[j] in Groups(rs)
    ensures TotalSize(Groups(rs), ks) == Count(rs, ks)
  {
    if ks != [] {
      TotalSizeIsCount(rs, ks[1..]);
    }
  }

  lemma {:induction false} CountAll(rs: seq<Reading>, ks: seq<string>)
    requires Distinct(ks)
    requires forall s :: s in Sensors(rs) ==> s in ks
    ensures Count(rs, ks) == |rs|
  {
    if rs != [] {
      var init := rs[..|rs| - 1];
      var r := rs[|rs| - 1];
      assert init + [r] == rs;
      assert Sensors(rs) == Sensors(init) + {r.sensor};
      CountAll(init, ks);
      CountSnoc(init, r, ks);
    } else {
      CountOfNothing(ks);
    }
  }

  lemma {:induction false} CountOfNothing(ks: seq<string>)
    ensures Count([], ks) == 0
  {
    if ks != [] {
      CountOfNothing(ks[1..]);
    }
  }

  lemma {:induction false} CountSnoc(rs: seq<Reading>, r: Reading, ks: seq<string>)
    requires Distinct(ks)
    ensures Count(rs + [r], ks) == Count(rs, ks) + (if r.sensor in ks then 1 else 0)
  {
    var rs' := rs + [r];
    assert rs'[..|rs'| - 1] == rs;
    assert rs'[|rs'| - 1] == r;
    if ks != [] {
      assert Distinct(ks[1..]) by {
        forall i, j | 0 <= i < j < |ks[1..]| ensures ks[1..][i] != ks[1..][j] {
          assert ks[1..][i] == ks[i + 1] && ks[1..][j] == ks[j + 1];
        }
      }
      CountSnoc(rs, r, ks[1..]);
      assert ks == [ks[0]] + ks[1..];
      if r.sensor == ks[0] {
        assert r.sensor !in ks[1..] by {
          forall j | 0 <= j < |ks[1..]| ensures ks[1..][j] != r.sensor {
            assert ks[1..][j] == ks[j + 1];
          }
        }
      }
    }
  }
}
