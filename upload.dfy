/**
 * The null normalisation `upload_dataset` applies to a parsed file
 * (backend/app/main.py:98-109): every float NaN, and every string that reads
 * "nan" once surrounding whitespace is stripped and letters are lower-cased,
 * becomes None; every other value is kept.
 */
module UploadCleanup {
  import Strings

  /** A Python float: NaN, an infinity, or a finite value. */
  datatype PyFloat = NaN | Infinite(negative: bool) | Finite(value: real)

  /** A cell of a parsed row; `Other` stands for any further object (a timestamp, say). */
  datatype Cell = NoneCell | FloatCell(f: PyFloat) | IntCell(i: int) | BoolCell(b: bool) | StrCell(s: string) | Other(tag: string)

  /** One `records`-orient row: its columns in order, each with its value. */
  type Row = seq<(string, Cell)>

  predicate IsNanText(s: string)
  {
    Strings.Lower(Strings.Strip(s)) == "nan"
  }

  /** The two tests of main.py:103 and main.py:105. */
  predicate IsMissing(v: Cell)
  {
    (v.FloatCell? && v.f.NaN?) || (v.StrCell? && IsNanText(v.s))
  }

  function CleanValue(v: Cell): Cell
  {
    if IsMissing(v) then NoneCell else v
  }

  /** The row that the inner loop builds as `new`. */
  function CleanRow(row: Row): (r: Row)
    ensures |r| == |row|
  {
    seq(|row|, k requires 0 <= k < |row| => (row[k].0, CleanValue(row[k].1)))
  }

  function Columns(row: Row): seq<string>
  {
    seq(|row|, k requires 0 <= k < |row| => row[k].0)
  }

  /** The two nested loops: one cleaned row per record, in order. */
  method CleanRecords(records: seq<Row>) returns (cleaned: seq<Row>)
    ensures |cleaned| == |records|
    ensures forall i :: 0 <= i < |records| ==> cleaned[i] == CleanRow(records[i])
  {
    cleaned := [];
    for i := 0 to |records|
      invariant |cleaned| == i
      invariant forall j :: 0 <= j < i ==> cleaned[j] == CleanRow(records[j])
    {
      var rec := records[i];
      var row: Row := [];
      for k := 0 to |rec|
        invariant row == CleanRow(rec[..k])
      {
        var (key, v) := rec[k];
        if v.FloatCell? && v.f.NaN? {
          row := row + [(key, NoneCell)];
        } else if v.StrCell? && IsNanText(v.s) {
          row := row + [(key, NoneCell)];
        } else {
          row := row + [(key, v)];
        }
        assert rec[..k + 1][..k] == rec[..k];
      }
      assert rec[..|rec|] == rec;
      cleaned := cleaned + [row];
    }
  }

  /** A cleaned row has the columns of the original, in the same order. */
  lemma CleanKeepsColumns(row: Row)
    ensures Columns(CleanRow(row)) == Columns(row)
  {
  }

  /** Exactly the missing markers become None; every other value is copied unchanged. */
  lemma CleanValueRule(row: Row, k: nat)
    requires k < |row|
    ensures IsMissing(row[k].1) ==> CleanRow(row)[k].1 == NoneCell
    ensures !IsMissing(row[k].1) ==> CleanRow(row)[k].1 == row[k].1
    ensures CleanRow(row)[k].1 != row[k].1 <==> IsMissing(row[k].1)
  {
  }

  /** Cleaning a cleaned row changes nothing: None is neither a float nor a string. */
  lemma CleanIdempotent(row: Row)
    ensures CleanRow(CleanRow(row)) == CleanRow(row)
  {
  }

  /** Any whitespace-padded spelling of "nan" in any letter case is a marker. */
  lemma {:induction false} PaddedNanIsMissing(left: string, core: string, right: string)
    requires Strings.AllSpace(left) && Strings.AllSpace(right)
    requires |core| == 3 && Strings.Lower(core) == "nan"
    ensures IsMissing(StrCell(left + core + right))
  {
    assert Strings.Lower(core)[0] == 'n' && Strings.Lower(core)[2] == 'n';
    assert Strings.LowerChar(core[0]) == 'n' && Strings.LowerChar(core[2]) == 'n';
    assert !Strings.IsSpace(core[0]) && !Strings.IsSpace(core[2]);
    Strings.StripPadded(left, core, right);
  }

  /** " NaN " is a marker, as is a float NaN. */
  lemma NanExamples()
    ensures IsMissing(StrCell(" NaN "))
    ensures IsMissing(FloatCell(NaN))
  {
    assert " NaN " == " " + "NaN" + " ";
    assert Strings.Lower("NaN") == "nan";
    PaddedNanIsMissing(" ", "NaN", " ");
  }

  /** "banana" and a finite float are kept. */
  lemma KeptExamples()
    ensures !IsMissing(StrCell("banana"))
    ensures !IsMissing(FloatCell(Finite(0.0)))
  {
    assert Strings.Strip("banana") == "banana";
    assert |Strings.Lower("banana")| == 6;
  }
}
