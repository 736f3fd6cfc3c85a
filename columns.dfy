/**
 * The transformer, on column names: the DataFrame built from the fetched
 * rows gets its two date columns converted, derived `_est` columns added,
 * five columns dropped, three renamed, one more dropped, and every name
 * upper-cased. Cell values travel with their rows unchanged; the date
 * arithmetic itself is not modelled.
 */
module Columns {
  import opened Basics
  import opened Dicts

  const CreateDate := "hs_createdate"
  const LastModified := "hs_lastmodifieddate"
  const ObjectId := "hs_object_id"
  const CreateDateEst := "hs_createdate_est"
  const LastModifiedEst := "hs_lastmodifieddate_est"
  const CreateDateEstStr := "hs_createdate_est_str"
  const LastModifiedEstStr := "hs_lastmodifieddate_est_str"
  const ContactRecordId := "hubspot_contact_record_id"
  const ContactId := "hs_contact_id"

  /** The names the transformer itself adds or renames to. */
  const Introduced: seq<string> :=
    [CreateDate, LastModified, CreateDateEst, LastModifiedEst, CreateDateEstStr, LastModifiedEstStr, ContactId]

  /** str.upper() on an ASCII character; other characters are left as they are. */
  function UpperChar(c: char): char
  {
    if 'a' <= c <= 'z' then (c as int - 32) as char else c
  }

  function UpperName(s: string): (r: string)
    ensures |r| == |s|
  {
    seq(|s|, i requires 0 <= i < |s| => UpperChar(s[i]))
  }

  /** `df.columns.str.upper()` */
  function UpperAll(names: seq<string>): (r: seq<string>)
    ensures |r| == |names|
  {
    seq(|names|, i requires 0 <= i < |names| => UpperName(names[i]))
  }

  /** Upper-casing twice is upper-casing once. */
  lemma UpperFixed()
    ensures forall s :: UpperName(UpperName(s)) == UpperName(s)
  {
    forall s
      ensures UpperName(UpperName(s)) == UpperName(s)
    {
      assert forall j :: 0 <= j < |s| ==> UpperChar(UpperChar(s[j])) == UpperChar(s[j]);
    }
  }

  /**
   * The column order of `pd.DataFrame(records)`: every key, in order of
   * first appearance; one column per distinct key of the rows, and no other.
   */
  function ColumnsOf(records: seq<Dict<Value>>): (r: seq<string>)
    ensures Distinct(r)
    ensures forall x :: x in r <==> exists i :: 0 <= i < |records| && x in Keys(records[i])
  {
    AllKeysShape([], records);
    AllKeys([], records)
  }

  function AllKeys(seen: seq<string>, records: seq<Dict<Value>>): seq<string>
    decreases |records|
  {
    if records == [] then seen else AllKeys(AddKeys(seen, Keys(records[0])), records[1..])
  }

  /** The DataFrame has one column per distinct key of the rows, and no other. */
  lemma {:induction false} AllKeysShape(seen: seq<string>, records: seq<Dict<Value>>)
    ensures Distinct(seen) ==> Distinct(AllKeys(seen, records))
    ensures forall x :: x in AllKeys(seen, records) <==>
              x in seen || exists i :: 0 <= i < |records| && x in Keys(records[i])
    decreases |records|
  {
    if records != [] {
      AddKeysShape(seen, Keys(records[0]));
      AllKeysShape(AddKeys(seen, Keys(records[0])), records[1..]);
      forall x | exists i :: 0 <= i < |records| && x in Keys(records[i])
        ensures x in Keys(records[0]) || exists i :: 0 <= i < |records[1..]| && x in Keys(records[1..][i])
      {
        var i :| 0 <= i < |records| && x in Keys(records[i]);
        if i > 0 {
          assert records[1..][i - 1] == records[i];
        }
      }
    }
  }

  /** The first of names that is not a column: the label drop() reports missing. */
  function FirstMissing(names: seq<string>, cols: seq<string>): (r: Option<string>)
    ensures r.None? <==> forall n :: n in names ==> n in cols
    ensures r.Some? ==> r.value in names && r.value !in cols
  {
    if names == [] then None
    else if names[0] !in cols then Some(names[0])
    else FirstMissing(names[1..], cols)
  }

  /** `df.rename(columns=m)`: every label in m is replaced, the others stay. */
  function Renamed(cols: seq<string>, m: map<string, string>): (r: seq<string>)
    ensures |r| == |cols|
  {
    seq(|cols|, i requires 0 <= i < |cols| => if cols[i] in m then m[cols[i]] else cols[i])
  }

  /** `df[target] = f(df[source])`: reading a missing source raises KeyError. */
  function Derived(cols: seq<string>, source: string, target: string): Result<seq<string>, RunError>
  {
    if source in cols then Success(AddKey(cols, target)) else Failure(MissingColumn(source))
  }

  /** `df.drop(...)`: raises KeyError when a label is missing. */
  function Dropped(cols: seq<string>, names: seq<string>): Result<seq<string>, RunError>
  {
    match FirstMissing(names, cols)
    case None => Success(Without(cols, names))
    case Some(n) => Failure(MissingColumn(n))
  }

  /**
   * Lines 129-141: both dates converted and their `_est` and `_est_str`
   * columns added; only a missing hs_createdate or hs_lastmodifieddate
   * makes the conversions fail.
   */
  function Converted(cols: seq<string>): (r: Result<seq<string>, RunError>)
    ensures r.Success? <==> CreateDate in cols && LastModified in cols
  {
    var c1 :- Derived(cols, CreateDate, CreateDate);
    var c2 :- Derived(c1, LastModified, LastModified);
    // the sources of the four derived columns are present by now
    var c3 := Derived(c2, CreateDate, CreateDateEst).value;
    var c4 := Derived(c3, LastModified, LastModifiedEst).value;
    var c5 := Derived(c4, CreateDateEst, CreateDateEstStr).value;
    Derived(c5, LastModifiedEst, LastModifiedEstStr)
  }

  /** Lines 144-148: the drops and renames; hs_lastmodifieddate is gone from what they leave. */
  function Trimmed(cols: seq<string>): (r: Result<seq<string>, RunError>)
    ensures r.Success? ==> LastModified !in r.value
    ensures r.Failure? ==> r.error.MissingColumn?
  {
    var c1 :- Dropped(cols, [CreateDate, LastModified, CreateDateEstStr, LastModifiedEstStr, ObjectId]);
    var c2 := Renamed(c1, map[CreateDateEst := CreateDate, LastModifiedEst := LastModified]);
    var c3 := Renamed(c2, map[ContactRecordId := ContactId]);
    Dropped(c3, [LastModified])
  }

  /**
   * Lines 129-150: the final column names, or the KeyError that ends the
   * run.
   */
  function Reshaped(cols: seq<string>): (r: Result<seq<string>, RunError>)
    ensures r.Failure? ==> r.error.MissingColumn?
  {
    var c1 :- Converted(cols);
    var c2 :- Trimmed(c1);
    Success(UpperAll(c2))
  }

  /** Every output column name is upper-case: no lower-case ASCII letter is left. */
  lemma ReshapedUpper(cols: seq<string>)
    requires Reshaped(cols).Success?
    ensures forall x :: x in Reshaped(cols).value ==> UpperName(x) == x
    ensures forall x, j :: x in Reshaped(cols).value && 0 <= j < |x| ==> !('a' <= x[j] <= 'z')
  {
    var c2 := Trimmed(Converted(cols).value).value;
    var r := UpperAll(c2);
    assert Reshaped(cols).value == r;
    UpperFixed();
    forall x | x in r
      ensures UpperName(x) == x
      ensures forall j :: 0 <= j < |x| ==> !('a' <= x[j] <= 'z')
    {
      var i :| 0 <= i < |r| && r[i] == x;
      assert x == UpperName(c2[i]);
    }
  }

  /**
   * The conversions read hs_createdate, then hs_lastmodifieddate, and fail
   * on the first that is missing; otherwise they append the four derived
   * columns that are not there yet.
   */
  lemma ConvertedShape(cols: seq<string>)
    ensures Converted(cols).Failure? ==>
              Converted(cols).error == MissingColumn(if CreateDate !in cols then CreateDate else LastModified)
    ensures Converted(cols).Success? ==>
              Converted(cols).value ==
              AddKey(AddKey(AddKey(AddKey(cols, CreateDateEst), LastModifiedEst), CreateDateEstStr), LastModifiedEstStr)
  {
  }

  /** The names the script uses differ from one another. */
  lemma NamesDiffer()
    ensures |CreateDate| == 13 && |LastModified| == 19 && |ObjectId| == 12
    ensures |CreateDateEst| == 17 && |LastModifiedEst| == 23
    ensures |CreateDateEstStr| == 21 && |LastModifiedEstStr| == 27
    ensures |ContactRecordId| == 25 && |ContactId| == 13 && CreateDate != ContactId
  {
    assert CreateDate[4] != ContactId[4];
  }

  /**
   * The transformation fails exactly when one of hs_createdate,
   * hs_lastmodifieddate and hs_object_id is missing, naming the first of
   * them in that order.
   */
  lemma ReshapeFailure(cols: seq<string>)
    ensures Reshaped(cols).Failure? <==> CreateDate !in cols || LastModified !in cols || ObjectId !in cols
    ensures Reshaped(cols).Failure? ==> Reshaped(cols).error == MissingColumn(
              if CreateDate !in cols then CreateDate
              else if LastModified !in cols then LastModified
              else ObjectId)
  {
    ConvertedShape(cols);
    if CreateDate in cols && LastModified in cols {
      var c6 := Converted(cols).value;
      assert ObjectId in c6 <==> ObjectId in cols by {
        NamesDiffer();
      }
      TrimmedDrops(c6);
    }
  }

  /**
   * Once the conversions have added their columns, the drops fail exactly
   * when hs_object_id is missing.
   */
  lemma TrimmedDrops(c6: seq<string>)
    requires CreateDate in c6 && LastModified in c6 && LastModifiedEst in c6
    requires CreateDateEstStr in c6 && LastModifiedEstStr in c6
    ensures Trimmed(c6).Success? <==> ObjectId in c6
    ensures Trimmed(c6).Failure? ==> Trimmed(c6).error == MissingColumn(ObjectId)
  {
    var drop := [CreateDate, LastModified, CreateDateEstStr, LastModifiedEstStr, ObjectId];
    if ObjectId in c6 {
      var c7 := Without(c6, drop);
      NamesDiffer();
      assert LastModifiedEst in c7;
      LastModifiedRestored(c7);
    } else {
      assert drop[1..][1..][1..][1..] == [ObjectId];
    }
  }

  /** The rename of hs_lastmodifieddate_est brings hs_lastmodifieddate back for the last drop. */
  lemma LastModifiedRestored(c7: seq<string>)
    requires LastModifiedEst in c7
    ensures LastModified in Renamed(Renamed(c7, map[CreateDateEst := CreateDate, LastModifiedEst := LastModified]),
                                    map[ContactRecordId := ContactId])
  {
    NamesDiffer();
    var c8 := Renamed(c7, map[CreateDateEst := CreateDate, LastModifiedEst := LastModified]);
    var i :| 0 <= i < |c7| && c7[i] == LastModifiedEst;
    assert c8[i] == LastModified;
    var c9 := Renamed(c8, map[ContactRecordId := ContactId]);
    assert c9[i] == LastModified;
  }

  /** An empty fetch gives a DataFrame without columns, and the run fails at line 129. */
  lemma EmptyFetchFails()
    ensures Reshaped(ColumnsOf([])) == Failure(MissingColumn(CreateDate))
  {
  }

  lemma {:induction false} WithoutAppend(a: seq<string>, b: seq<string>, names: seq<string>)
    ensures Without(a + b, names) == Without(a, names) + Without(b, names)
  {
    if a == [] {
      assert a + b == b;
    } else {
      assert (a + b)[1..] == a[1..] + b;
      WithoutAppend(a[1..], b, names);
    }
  }

  lemma RenamedAppend(a: seq<string>, b: seq<string>, m: map<string, string>)
    ensures Renamed(a + b, m) == Renamed(a, m) + Renamed(b, m)
  {
    var r := Renamed(a + b, m);
    forall i | 0 <= i < |r|
      ensures r[i] == (Renamed(a, m) + Renamed(b, m))[i]
    {
      if i >= |a| {
        assert (a + b)[i] == b[i - |a|];
      }
    }
  }

  lemma RenamedNoop(cols: seq<string>, m: map<string, string>)
    requires forall x :: x in cols ==> x !in m
    ensures Renamed(cols, m) == cols
  {
  }

  /** The first drop removes the two `_est_str` columns and keeps the two `_est` ones. */
  lemma DerivedLabelsDropped()
    ensures Without([CreateDateEst, LastModifiedEst, CreateDateEstStr, LastModifiedEstStr],
                    [CreateDate, LastModified, CreateDateEstStr, LastModifiedEstStr, ObjectId])
            == [CreateDateEst, LastModifiedEst]
  {
    NamesDiffer();
    var drop := [CreateDate, LastModified, CreateDateEstStr, LastModifiedEstStr, ObjectId];
    var added := [CreateDateEst, LastModifiedEst, CreateDateEstStr, LastModifiedEstStr];
    assert added[1..][1..][1..][1..] == [];
    assert Without(added[1..][1..][1..], drop) == [];
    assert Without(added[1..][1..], drop) == [];
    assert Without(added[1..], drop) == [LastModifiedEst];
    assert [CreateDateEst] + [LastModifiedEst] == [CreateDateEst, LastModifiedEst];
  }

  /** The first drop on converted fresh columns. */
  lemma FirstDropOfFresh(cols: seq<string>)
    requires CreateDateEstStr !in cols && LastModifiedEstStr !in cols
    ensures Without(cols + [CreateDateEst, LastModifiedEst, CreateDateEstStr, LastModifiedEstStr],
                    [CreateDate, LastModified, CreateDateEstStr, LastModifiedEstStr, ObjectId])
            == Without(cols, [CreateDate, LastModified, ObjectId]) + [CreateDateEst, LastModifiedEst]
  {
    NamesDiffer();
    var drop := [CreateDate, LastModified, CreateDateEstStr, LastModifiedEstStr, ObjectId];
    var added := [CreateDateEst, LastModifiedEst, CreateDateEstStr, LastModifiedEstStr];
    WithoutSame(cols, drop, [CreateDate, LastModified, ObjectId]);
    WithoutAppend(cols, added, drop);
    DerivedLabelsDropped();
  }

  /** Both renames on what the first drop leaves of fresh columns. */
  lemma RenamesOfFresh(w: seq<string>)
    requires CreateDateEst !in w && LastModifiedEst !in w
    ensures var r := Renamed(w, map[ContactRecordId := ContactId]);
      && Renamed(Renamed(w + [CreateDateEst, LastModifiedEst],
                         map[CreateDateEst := CreateDate, LastModifiedEst := LastModified]),
                 map[ContactRecordId := ContactId])
         == r + [CreateDate, LastModified]
      && (LastModified !in w ==> LastModified !in r)
  {
    NamesDiffer();
    var m1 := map[CreateDateEst := CreateDate, LastModifiedEst := LastModified];
    var m2 := map[ContactRecordId := ContactId];
    RenamedAppend(w, [CreateDateEst, LastModifiedEst], m1);
    RenamedNoop(w, m1);
    RenamedAppend(w, [CreateDate, LastModified], m2);
    var r := Renamed(w, m2);
    if LastModified !in w {
      forall i | 0 <= i < |r|
        ensures r[i] != LastModified
      {
        assert w[i] in w;
      }
    }
  }

  /** The last drop, when only the renamed create date's partner carries that label. */
  lemma LastDropOfFresh(r: seq<string>)
    requires LastModified !in r
    ensures Without(r + [CreateDate, LastModified], [LastModified]) == r + [CreateDate]
  {
    NamesDiffer();
    WithoutAppend(r, [CreateDate, LastModified], [LastModified]);
    WithoutNoop(r, [LastModified]);
    assert [CreateDate, LastModified][1..] == [LastModified];
    assert Without([CreateDate, LastModified], [LastModified]) == [CreateDate];
  }

  /**
   * For a frame whose columns are fresh from the batch endpoint (all three
   * HubSpot date and ID columns present, none of the derived names yet), the
   * output columns are the input columns without hs_createdate,
   * hs_lastmodifieddate and hs_object_id, in their order, with the contact
   * record ID renamed to hs_contact_id, followed by the Eastern-time create
   * date under the name hs_createdate; all upper-cased.
   */
  lemma ReshapeOutput(cols: seq<string>)
    requires CreateDate in cols && LastModified in cols && ObjectId in cols
    requires CreateDateEst !in cols && LastModifiedEst !in cols
    requires CreateDateEstStr !in cols && LastModifiedEstStr !in cols
    ensures Reshaped(cols) == Success(UpperAll(
              Renamed(Without(cols, [CreateDate, LastModified, ObjectId]), map[ContactRecordId := ContactId])
              + [CreateDate]))
  {
    NamesDiffer();
    ConvertedShape(cols);
    var c6 := Converted(cols).value;
    assert c6 == cols + [CreateDateEst, LastModifiedEst, CreateDateEstStr, LastModifiedEstStr];
    var drop := [CreateDate, LastModified, CreateDateEstStr, LastModifiedEstStr, ObjectId];
    assert FirstMissing(drop, c6) == None;
    var w := Without(cols, [CreateDate, LastModified, ObjectId]);
    FirstDropOfFresh(cols);
    assert Dropped(c6, drop) == Success(w + [CreateDateEst, LastModifiedEst]);
    RenamesOfFresh(w);
    var r := Renamed(w, map[ContactRecordId := ContactId]);
    LastDropOfFresh(r);
    assert Trimmed(c6) == Success(r + [CreateDate]);
  }

  /**
   * Every column the transformation leaves, before upper-casing, is one the
   * frame had or one it introduces itself, and none is hs_lastmodifieddate.
   */
  lemma TrimmedProvenance(cols: seq<string>)
    requires Trimmed(cols).Success?
    ensures forall x :: x in Trimmed(cols).value ==>
              x != LastModified && (x in cols || x in Introduced)
  {
    var c7 := Without(cols, [CreateDate, LastModified, CreateDateEstStr, LastModifiedEstStr, ObjectId]);
    var c8 := Renamed(c7, map[CreateDateEst := CreateDate, LastModifiedEst := LastModified]);
    var c9 := Renamed(c8, map[ContactRecordId := ContactId]);
    forall x | x in c9
      ensures x in cols || x in Introduced
    {
      var i :| 0 <= i < |c9| && c9[i] == x;
      assert c7[i] in c7;
    }
  }

  /** The conversions add only names the transformer introduces. */
  lemma ConvertedProvenance(cols: seq<string>)
    requires Converted(cols).Success?
    ensures forall x :: x in Converted(cols).value ==> x in cols || x in Introduced
  {
    ConvertedShape(cols);
    assert Introduced[2..6] == [CreateDateEst, LastModifiedEst, CreateDateEstStr, LastModifiedEstStr];
  }

  /** Only hs_lastmodifieddate among the introduced names upper-cases to HS_LASTMODIFIEDDATE. */
  lemma IntroducedNotLastModified(x: string)
    requires x in Introduced && x != LastModified
    ensures UpperName(x) != "HS_LASTMODIFIEDDATE"
  {
    NamesDiffer();
    assert |"HS_LASTMODIFIEDDATE"| == 19;
  }

  /**
   * No output column is named HS_LASTMODIFIEDDATE, provided the only input
   * column that upper-cases to that name is hs_lastmodifieddate itself.
   */
  lemma NoLastModifiedOut(cols: seq<string>)
    requires forall x :: x in cols && UpperName(x) == "HS_LASTMODIFIEDDATE" ==> x == LastModified
    requires Reshaped(cols).Success?
    ensures "HS_LASTMODIFIEDDATE" !in Reshaped(cols).value
  {
    var c6 := Converted(cols).value;
    var c10 := Trimmed(c6).value;
    ConvertedProvenance(cols);
    TrimmedProvenance(c6);
    forall i | 0 <= i < |c10|
      ensures UpperName(c10[i]) != "HS_LASTMODIFIEDDATE"
    {
      var x := c10[i];
      assert x in c10;
      if x !in cols {
        assert x in Introduced;
        IntroducedNotLastModified(x);
      }
    }
    assert Reshaped(cols).value == UpperAll(c10);
  }

  /**
   * An in-memory DataFrame: its column labels in order and its rows. The
   * methods are the in-place pandas operations the script applies.
   */
  class Frame {
    var columns: seq<string>
    var rows: seq<Dict<Value>>

    /** `pd.DataFrame(records)` */
    constructor (records: seq<Dict<Value>>)
      ensures columns == ColumnsOf(records) && rows == records
    {
      columns := ColumnsOf(records);
      rows := records;
    }

    /** `df[target] = f(df[source])`: a new label goes last, an existing one keeps its place. */
    method Derive(source: string, target: string) returns (ok: bool)
      modifies this
      ensures ok == (source in old(columns))
      ensures columns == if ok then AddKey(old(columns), target) else old(columns)
      ensures rows == old(rows)
    {
      ok := source in columns;
      if ok {
        columns := AddKey(columns, target);
      }
    }

    /** `df.drop(columns=names, inplace=True)`: all or nothing. */
    method Drop(names: seq<string>) returns (missing: Option<string>)
      modifies this
      ensures missing == FirstMissing(names, old(columns))
      ensures columns == if missing.None? then Without(old(columns), names) else old(columns)
      ensures rows == old(rows)
    {
      missing := FirstMissing(names, columns);
      if missing.None? {
        columns := Without(columns, names);
      }
    }

    /** `df.rename(columns=m, inplace=True)` */
    method Rename(m: map<string, string>)
      modifies this
      ensures columns == Renamed(old(columns), m)
      ensures rows == old(rows)
    {
      columns := Renamed(columns, m);
    }

    /** `df.columns = df.columns.str.upper()` */
    method UpperCaseColumns()
      modifies this
      ensures columns == UpperAll(old(columns))
      ensures rows == old(rows)
    {
      columns := UpperAll(columns);
    }

    /** Lines 129-141 applied to this frame in place. */
    method Convert() returns (out: Outcome<RunError>)
      modifies this
      ensures out.Pass? <==> Converted(old(columns)).Success?
      ensures out.Pass? ==> columns == Converted(old(columns)).value
      ensures out.Fail? ==> out.error == Converted(old(columns)).error
      ensures rows == old(rows)
    {
      var ok := Derive(CreateDate, CreateDate);
      if !ok { return Fail(MissingColumn(CreateDate)); }
      ok := Derive(LastModified, LastModified);
      if !ok { return Fail(MissingColumn(LastModified)); }
      ok := Derive(CreateDate, CreateDateEst);
      if !ok { return Fail(MissingColumn(CreateDate)); }
      ok := Derive(LastModified, LastModifiedEst);
      if !ok { return Fail(MissingColumn(LastModified)); }
      ok := Derive(CreateDateEst, CreateDateEstStr);
      if !ok { return Fail(MissingColumn(CreateDateEst)); }
      ok := Derive(LastModifiedEst, LastModifiedEstStr);
      if !ok { return Fail(MissingColumn(LastModifiedEst)); }
      out := Pass;
    }

    /** Lines 144-148 applied to this frame in place. */
    method Trim() returns (out: Outcome<RunError>)
      modifies this
      ensures out.Pass? <==> Trimmed(old(columns)).Success?
      ensures out.Pass? ==> columns == Trimmed(old(columns)).value
      ensures out.Fail? ==> out.error == Trimmed(old(columns)).error
      ensures rows == old(rows)
    {
      var missing := Drop([CreateDate, LastModified, CreateDateEstStr, LastModifiedEstStr, ObjectId]);
      if missing.Some? { return Fail(MissingColumn(missing.value)); }
      Rename(map[CreateDateEst := CreateDate, LastModifiedEst := LastModified]);
      Rename(map[ContactRecordId := ContactId]);
      missing := Drop([LastModified]);
      if missing.Some? { return Fail(MissingColumn(missing.value)); }
      out := Pass;
    }

    /** Lines 129-150 applied to this frame in place; the rows are untouched. */
    method Reshape() returns (out: Outcome<RunError>)
      modifies this
      ensures out.Pass? <==> Reshaped(old(columns)).Success?
      ensures out.Pass? ==> columns == Reshaped(old(columns)).value
      ensures out.Fail? ==> out.error == Reshaped(old(columns)).error
      ensures rows == old(rows)
    {
      out := Convert();
      if out.Fail? { return; }
      out := Trim();
      if out.Fail? { return; }
      UpperCaseColumns();
    }
  }
}
