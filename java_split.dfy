/**
 * String.split(",") as the loader calls it: the line is cut at every comma, and
 * trailing empty fields are removed from the result; a line without any comma is
 * returned whole as the only field, even when it is empty.
 */
module JavaSplit {

  /** Every field between commas, empty ones included: one more field than commas. */
  function Fields(s: string): (fs: seq<string>)
    ensures |fs| > 0
    ensures forall i :: 0 <= i < |fs| ==> ',' !in fs[i]
  {
    if s == [] then [""]
    else
      var rest := Fields(s[1..]);
      if s[0] == ',' then [""] + rest else [[s[0]] + rest[0]] + rest[1..]
  }

  /** The fields put back together with a comma between neighbours. */
  function Join(fs: seq<string>): string
    requires |fs| > 0
  {
    if |fs| == 1 then fs[0] else fs[0] + "," + Join(fs[1..])
  }

  /** Removes the empty fields at the end. */
  function DropTrailingEmpty(fs: seq<string>): (r: seq<string>)
    ensures r <= fs
    ensures r == [] || r[|r| - 1] != ""
    ensures forall i :: |r| <= i < |fs| ==> fs[i] == ""
  {
    if fs != [] && fs[|fs| - 1] == "" then DropTrailingEmpty(fs[..|fs| - 1]) else fs
  }

  /** line.split(","). */
  function Split(s: string): seq<string>
  {
    if ',' !in s then [s] else DropTrailingEmpty(Fields(s))
  }

  // ----- Lemmas -------------------------------------------------------------------

  /** Joining the fields gives the line back. */
  lemma {:induction false} JoinFields(s: string)
    ensures Join(Fields(s)) == s
  {
    if s != [] {
      var rest := Fields(s[1..]);
      JoinFields(s[1..]);
      if s[0] == ',' {
        assert ([""] + rest)[1..] == rest;
        assert s == "," + s[1..];
      } else {
        var fs := [[s[0]] + rest[0]] + rest[1..];
        if |rest| == 1 {
          assert s == [s[0]] + rest[0];
        } else {
          assert fs[1..] == rest[1..];
          assert Join(rest) == rest[0] + "," + Join(rest[1..]);
          assert s == [s[0]] + s[1..];
        }
      }
    }
  }

  /** Cutting a comma-joined list of comma-free fields gives the fields back. */
  lemma {:induction false} FieldsJoin(fs: seq<string>)
    requires |fs| > 0
    requires forall i :: 0 <= i < |fs| ==> ',' !in fs[i]
    ensures Fields(Join(fs)) == fs
    decreases |fs|, |fs[0]|
  {
    var f := fs[0];
    if f == [] {
      if |fs| > 1 {
        var s := Join(fs);
        assert s == "," + Join(fs[1..]);
        assert s[1..] == Join(fs[1..]);
        FieldsJoin(fs[1..]);
        assert fs == [""] + fs[1..];
      }
    } else {
      var fs' := [f[1..]] + fs[1..];
      assert forall i :: 0 <= i < |fs'| ==> ',' !in fs'[i] by {
        forall i | 0 <= i < |fs'| ensures ',' !in fs'[i] {
          if i > 0 { assert fs'[i] == fs[i]; }
        }
      }
      FieldsJoin(fs');
      var s := Join(fs);
      if |fs| == 1 {
        assert s == f && Join(fs') == f[1..];
      } else {
        assert fs'[1..] == fs[1..];
        assert Join(fs') == f[1..] + "," + Join(fs[1..]);
      }
      assert s[0] == f[0] && s[1..] == Join(fs');
      assert f == [f[0]] + f[1..];
      assert fs == [[f[0]] + fs'[0]] + fs'[1..];
    }
  }

  /** A line without commas is one field. */
  lemma FieldsWithoutComma(s: string)
    requires ',' !in s
    ensures Fields(s) == [s]
  {
    FieldsJoin([s]);
  }

  /**
   * What split keeps: a line without commas whole; otherwise the fields up to the
   * last non-empty one, everything after them being empty.
   */
  lemma SplitIsPrefixOfFields(s: string)
    ensures ',' !in s ==> Split(s) == Fields(s) == [s]
    ensures Split(s) <= Fields(s)
    ensures ',' in s ==> Split(s) == [] || Split(s)[|Split(s)| - 1] != ""
    ensures forall i :: |Split(s)| <= i < |Fields(s)| ==> Fields(s)[i] == ""
  {
    if ',' !in s { FieldsWithoutComma(s); }
  }

  /** A comma added at the end of a non-empty line only adds an empty field, which split removes. */
  lemma {:induction false} FieldsAppendComma(s: string)
    ensures Fields(s + ",") == Fields(s) + [""]
  {
    if s == [] {
      assert s + "," == ",";
    } else {
      assert (s + ",")[1..] == s[1..] + ",";
      FieldsAppendComma(s[1..]);
    }
  }

  /** "a,1," splits like "a,1": the trailing empty field is dropped. */
  lemma TrailingCommaDropped(s: string)
    requires s != []
    ensures Split(s + ",") == Split(s)
  {
    FieldsAppendComma(s);
    var fs := Fields(s);
    assert ',' in s + "," by { assert (s + ",")[|s|] == ','; }
    assert (fs + [""])[..|fs|] == fs;
    if ',' !in s {
      FieldsWithoutComma(s);
    }
  }

  /** An empty line has one (empty) field; a lone comma has none. */
  lemma SplitEmptyExamples()
    ensures Split("") == [""]
    ensures Split(",") == []
  {
  }

  /** "a,1," has two fields, while an empty field between commas is kept. */
  lemma SplitTrailingExamples()
    ensures Split("a,1,") == ["a", "1"]
    ensures Split("a,,1") == ["a", "", "1"]
  {
    assert Join(["a", "1", ""]) == "a,1,";
    FieldsJoin(["a", "1", ""]);
    assert "a,1,"[1] == ',';
    assert ["a", "1", ""][..2] == ["a", "1"];
    assert Join(["a", "", "1"]) == "a,,1";
    FieldsJoin(["a", "", "1"]);
    assert "a,,1"[1] == ',';
  }
}
