/** `normalize_columns` of the bhavcopy importer (archive/test.py): the
    column names of a freshly read CSV are stripped, their spaces become
    underscores and they are lower-cased; then `deliv_per` is renamed
    `delv_pct` and `date1` is renamed `date`, each only when present. */
module Normalize {
  import opened Text

  /** One column name after `str.strip().str.replace(" ", "_").str.lower()`. */
  function CleanName(c: string): string
  {
    Lower(ReplaceChar(Strip(c), ' ', "_"))
  }

  /** A cleaned name is no longer than the original, starts and ends
      with no white space, has no space and no capital letter left. */
  lemma CleanNameShape(c: string)
    ensures var r := CleanName(c);
      && |r| == |Strip(c)| <= |c|
      && (|r| > 0 ==> !IsSpace(r[0]) && !IsSpace(r[|r| - 1]))
      && ' ' !in r
      && forall i :: 0 <= i < |r| ==> !('A' <= r[i] <= 'Z')
  {
    var s := Strip(c);
    ReplaceCharOne(s, ' ', '_');
    var t := ReplaceChar(s, ' ', "_");
    var r := Lower(t);
    forall i | 0 <= i < |r|
      ensures r[i] != ' ' && !('A' <= r[i] <= 'Z')
    {
      assert t[i] != ' ';
    }
    if |r| > 0 {
      assert t[0] == s[0];
      assert t[|t| - 1] == s[|s| - 1];
    }
  }

  /** A name with no space, no capital and no white space at its ends
      is its own cleaned form. */
  lemma CleanFixed(d: string)
    requires |d| > 0 ==> !IsSpace(d[0]) && !IsSpace(d[|d| - 1])
    requires ' ' !in d
    requires forall i :: 0 <= i < |d| ==> !('A' <= d[i] <= 'Z')
    ensures CleanName(d) == d
  {
    StripNoSpace(d);
    ReplaceCharAbsent(d, ' ', "_");
    assert Lower(d) == d;
  }

  /** The renames, in the order the loop applies them. */
  const Renames: seq<(string, string)> := [("deliv_per", "delv_pct"), ("date1", "date")]

  /** `df.rename(columns={from: to})`: every column called `from` is
      called `to` afterwards. */
  function Rename(cols: seq<string>, from: string, to: string): (r: seq<string>)
    ensures |r| == |cols|
  {
    seq(|cols|, i requires 0 <= i < |cols| => if cols[i] == from then to else cols[i])
  }

  /** The first `k` renames applied one after the other. */
  function RenameAll(cols: seq<string>, renames: seq<(string, string)>): (r: seq<string>)
    ensures |r| == |cols|
  {
    if |renames| == 0 then cols
    else
      var last := renames[|renames| - 1];
      Rename(RenameAll(cols, renames[..|renames| - 1]), last.0, last.1)
  }

  /** Every label cleaned: one per column, none with a space or a capital
      letter left. */
  function CleanAll(cols: seq<string>): (r: seq<string>)
    ensures |r| == |cols|
    ensures forall i :: 0 <= i < |r| ==> ' ' !in r[i]
    ensures forall i, j :: 0 <= i < |r| && 0 <= j < |r[i]| ==> !('A' <= r[i][j] <= 'Z')
  {
    var r := seq(|cols|, i requires 0 <= i < |cols| => CleanName(cols[i]));
    forall i | 0 <= i < |r|
      ensures ' ' !in r[i] && forall j :: 0 <= j < |r[i]| ==> !('A' <= r[i][j] <= 'Z')
    {
      CleanNameShape(cols[i]);
    }
    r
  }

  /** The column names `normalize_columns` leaves on the frame. */
  function Normalized(cols: seq<string>): seq<string>
  {
    RenameAll(CleanAll(cols), Renames)
  }

  /** What one name becomes, read off the mapping directly. */
  function NormalName(c: string): string
  {
    var d := CleanName(c);
    if d == "deliv_per" then "delv_pct" else if d == "date1" then "date" else d
  }

  /** The columns keep their number and order, and each becomes its own
      normal name: the renames do not feed into each other. */
  lemma NormalizedPointwise(cols: seq<string>)
    ensures |Normalized(cols)| == |cols|
    ensures forall i :: 0 <= i < |cols| ==> Normalized(cols)[i] == NormalName(cols[i])
  {
    var c := CleanAll(cols);
    assert Renames[..1] == [("deliv_per", "delv_pct")];
    assert Renames[..1][..0] == [];
    var once := Rename(c, "deliv_per", "delv_pct");
    assert RenameAll(c, Renames[..1]) == once;
    assert Normalized(cols) == Rename(once, "date1", "date");
  }

  /** A cleaned name is clean: the cleaning is idempotent. */
  lemma CleanNameIdempotent(c: string)
    ensures CleanName(CleanName(c)) == CleanName(c)
  {
    CleanNameShape(c);
    CleanFixed(CleanName(c));
  }

  lemma DelvPctClean()
    ensures CleanName("delv_pct") == "delv_pct"
  {
    CleanFixed("delv_pct");
  }

  lemma DateClean()
    ensures CleanName("date") == "date"
  {
    CleanFixed("date");
  }

  /** A clean name that no rename applies to is its own normal name. */
  lemma NormalNameFixed(d: string)
    requires CleanName(d) == d && d != "deliv_per" && d != "date1"
    ensures NormalName(d) == d
  {
  }

  lemma NormalNameIdempotent(c: string)
    ensures NormalName(NormalName(c)) == NormalName(c)
  {
    var n := NormalName(c);
    CleanNameIdempotent(c);
    if n == "delv_pct" {
      DelvPctClean();
    } else if n == "date" {
      DateClean();
    }
    NormalNameFixed(n);
  }

  /** Normalising twice is normalising once. */
  lemma NormalizedIdempotent(cols: seq<string>)
    ensures Normalized(Normalized(cols)) == Normalized(cols)
  {
    var n := Normalized(cols);
    NormalizedPointwise(cols);
    NormalizedPointwise(n);
    forall i | 0 <= i < |cols|
      ensures Normalized(n)[i] == n[i]
    {
      NormalNameIdempotent(cols[i]);
    }
  }

  /** Names that are already clean, and are neither `deliv_per` nor
      `date1`, are left as they are. */
  lemma NormalizedFixed(cols: seq<string>)
    requires forall i :: 0 <= i < |cols| ==> CleanName(cols[i]) == cols[i]
    requires "deliv_per" !in cols && "date1" !in cols
    ensures Normalized(cols) == cols
  {
    NormalizedPointwise(cols);
    forall i | 0 <= i < |cols|
      ensures Normalized(cols)[i] == cols[i]
    {
      assert cols[i] in cols;
    }
  }

  /** A rename whose source column is absent changes nothing. */
  lemma RenameAbsent(cols: seq<string>, from: string, to: string)
    requires from !in cols
    ensures Rename(cols, from, to) == cols
  {
    forall i | 0 <= i < |cols|
      ensures Rename(cols, from, to)[i] == cols[i]
    {
      assert cols[i] in cols;
    }
  }

  /** The data frame whose column labels `normalize_columns` reassigns. */
  class Frame {
    var columns: seq<string>

    constructor (cols: seq<string>)
      ensures columns == cols
    {
      columns := cols;
    }

    /** `normalize_columns(df)`: the labels are cleaned as a whole, then
        each rename whose source column is present is applied in place. */
    method NormalizeColumns()
      modifies this
      ensures columns == Normalized(old(columns))
    {
      var cleaned := CleanAll(columns);
      columns := cleaned;
      var k := 0;
      while k < |Renames|
        invariant k <= |Renames|
        invariant columns == RenameAll(cleaned, Renames[..k])
      {
        var (from, to) := Renames[k];
        assert Renames[..k + 1][..k] == Renames[..k];
        if from in columns {
          columns := Rename(columns, from, to);
        } else {
          RenameAbsent(columns, from, to);
        }
        k := k + 1;
      }
      assert Renames[..k] == Renames;
    }
  }
}
