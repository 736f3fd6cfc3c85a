/**
 * The diff: convert the ID column of the warehouse table with Python's int()
 * and keep the listing IDs that are not among the converted ones.
 */
module IdDiff {
  import opened Basics

  /** The ASCII characters int() skips around a numeral: tab, newline, vertical tab, form feed, carriage return and space. */
  predicate IsSpace(c: char)
  {
    9 <= c as int <= 13 || c == ' '
  }

  predicate IsDigit(c: char)
  {
    '0' <= c <= '9'
  }

  function StripLeft(s: string): string
  {
    if s != [] && IsSpace(s[0]) then StripLeft(s[1..]) else s
  }

  function StripRight(s: string): string
  {
    if s != [] && IsSpace(s[|s| - 1]) then StripRight(s[..|s| - 1]) else s
  }

  /**
   * Decimal digits, where a single underscore may stand between two digits
   * ("1_000"), as int() accepts them.
   */
  predicate IsNumeral(s: string)
  {
    && |s| > 0
    && forall i {:trigger s[i]} :: 0 <= i < |s| ==>
         IsDigit(s[i]) || (s[i] == '_' && 0 < i < |s| - 1 && IsDigit(s[i - 1]) && IsDigit(s[i + 1]))
  }

  /** The number the digits of s spell, underscores skipped. */
  function DigitsValue(s: string): nat
  {
    if s == [] then 0
    else if s[|s| - 1] == '_' then DigitsValue(s[..|s| - 1])
    else if IsDigit(s[|s| - 1]) then DigitsValue(s[..|s| - 1]) * 10 + (s[|s| - 1] as int - '0' as int)
    else DigitsValue(s[..|s| - 1])
  }

  /**
   * Python's int(s) for a str in base 10: surrounding whitespace is ignored,
   * one sign is allowed, and anything else is a ValueError (None).
   */
  function ParseInt(s: string): (r: Option<int>)
    ensures StripRight(StripLeft(s)) == [] ==> r.None?
    ensures r.Some? && r.value < 0 ==> StripRight(StripLeft(s))[0] == '-'
  {
    var t := StripRight(StripLeft(s));
    if |t| > 0 && (t[0] == '-' || t[0] == '+') then
      if IsNumeral(t[1..]) then
        Some(if t[0] == '-' then -(DigitsValue(t[1..]) as int) else DigitsValue(t[1..]))
      else None
    else if IsNumeral(t) then Some(DigitsValue(t))
    else None
  }

  function DigitChar(d: nat): char
    requires d < 10
  {
    ('0' as int + d) as char
  }

  /** str(n) for n >= 0 */
  function Decimal(n: nat): string
  {
    if n < 10 then [DigitChar(n)] else Decimal(n / 10) + [DigitChar(n % 10)]
  }

  /** str(n) */
  function Show(n: int): string
  {
    if n < 0 then "-" + Decimal(-n) else Decimal(n)
  }

  lemma {:induction false} DecimalIsNumeral(n: nat)
    ensures IsNumeral(Decimal(n)) && DigitsValue(Decimal(n)) == n
    ensures IsDigit(Decimal(n)[0]) && IsDigit(Decimal(n)[|Decimal(n)| - 1])
    ensures forall i :: 0 <= i < |Decimal(n)| ==> IsDigit(Decimal(n)[i])
  {
    var s := Decimal(n);
    if n >= 10 {
      var p := Decimal(n / 10);
      DecimalIsNumeral(n / 10);
      assert s == p + [DigitChar(n % 10)] && s[..|s| - 1] == p;
      forall i | 0 <= i < |s|
        ensures IsDigit(s[i])
      {
        if i < |s| - 1 {
          assert s[i] == p[i];
        }
      }
      assert IsNumeral(s);
    } else {
      assert |s| == 1 && IsDigit(s[0]);
    }
  }

  /** int(str(n)) == n: the text the warehouse holds for an ID reads back as that ID. */
  lemma ParseShow(n: int)
    ensures ParseInt(Show(n)) == Some(n)
  {
    var m := if n < 0 then -n else n;
    DecimalIsNumeral(m);
    ShowUnpadded(n);
    if n < 0 {
      assert Show(n)[1..] == Decimal(m);
    }
  }

  /** str(n) has no surrounding whitespace. */
  lemma ShowUnpadded(n: int)
    ensures StripRight(StripLeft(Show(n))) == Show(n)
  {
    var m := if n < 0 then -n else n;
    DecimalIsNumeral(m);
    var s := Show(n);
    assert !IsSpace(s[0]) && !IsSpace(s[|s| - 1]);
  }

  /** A run of characters int() skips around a numeral. */
  predicate AllSpace(s: string)
  {
    forall i :: 0 <= i < |s| ==> IsSpace(s[i])
  }

  lemma ParseShowAll()
    ensures forall n :: ParseInt(Show(n)) == Some(n)
  {
    forall n
      ensures ParseInt(Show(n)) == Some(n)
    {
      ParseShow(n);
    }
  }

  /** Whitespace on either side does not change what int() reads. */
  lemma ParseIgnoresPadding(a: string, s: string, b: string)
    requires AllSpace(a) && AllSpace(b)
    ensures ParseInt(a + s + b) == ParseInt(s)
  {
    assert a + s + b == a + (s + b);
    StripLeftSpaces(a, s + b);
    StripLeftAppend(s, b);
    var t := StripLeft(s);
    if t != [] {
      StripRightSpaces(t, b);
    }
  }

  lemma ParseTwo()
    ensures StripRight(StripLeft("2")) == "2" && ParseInt("2") == Some(2)
  {
    var d := "2";
    assert d[0] == '2' && IsDigit(d[0]) && d[..0] == [];
    assert StripLeft(d) == d && StripRight(d) == d;
    assert IsNumeral(d) && DigitsValue(d) == 2;
  }

  /**
   * int() skips tab and newline around a numeral, but not the ASCII
   * separator characters 28-31 that str.strip() would also remove.
   */
  lemma SkippedCharacters()
    ensures ParseInt("\t2\n") == Some(2)
    ensures ParseInt("\U{1C}2") == None
  {
    assert StripLeft("\t2\n") == StripLeft("2\n") == "2\n";
    assert StripRight("2\n") == StripRight("2") == "2";
    ParseTwo();
    var t := "\U{1C}2";
    assert !IsSpace(t[0]) && !IsSpace(t[1]);
    assert StripLeft(t) == t && StripRight(t) == t;
    assert t[0] as int == 28 && !IsDigit(t[0]) && t[0] != '_';
    assert t[0] != '-' && t[0] != '+';
  }

  lemma {:induction false} StripLeftSpaces(a: string, t: string)
    requires AllSpace(a)
    ensures StripLeft(a + t) == StripLeft(t)
  {
    if a != [] {
      assert IsSpace((a + t)[0]) && (a + t)[1..] == a[1..] + t;
      StripLeftSpaces(a[1..], t);
    } else {
      assert a + t == t;
    }
  }

  lemma {:induction false} StripLeftAppend(s: string, b: string)
    requires AllSpace(b)
    ensures StripLeft(s + b) == if StripLeft(s) == [] then [] else StripLeft(s) + b
  {
    if s == [] {
      assert s + b == b + [];
      StripLeftSpaces(b, []);
    } else if IsSpace(s[0]) {
      assert (s + b)[1..] == s[1..] + b;
      StripLeftAppend(s[1..], b);
    }
  }

  lemma {:induction false} StripRightSpaces(t: string, b: string)
    requires AllSpace(b)
    ensures StripRight(t + b) == StripRight(t)
    decreases |b|
  {
    if b == [] {
      assert t + b == t;
    } else {
      var b' := b[..|b| - 1];
      assert (t + b)[|t + b| - 1] == b[|b| - 1];
      assert (t + b)[..|t + b| - 1] == t + b';
      StripRightSpaces(t, b');
    }
  }

  /**
   * int(x) of one table cell: a NULL cell is a TypeError (None), an
   * integer cell is itself, and a cell holding the decimal text of n reads
   * as n.
   */
  function ToInt(v: Value): (r: Option<int>)
    ensures v.Null? ==> r.None?
    ensures v.Num? ==> r == Some(v.n)
    ensures forall n :: v == Text(Show(n)) ==> r == Some(n)
  {
    ParseShowAll();
    match v
    case Null => None
    case Num(n) => Some(n)
    case Text(s) => ParseInt(s)
  }

  /**
   * `[int(x) for x in df_id_list]`: the converted IDs in order, or the
   * error raised by the first cell int() refuses.
   */
  function TableIds(cells: seq<Value>): (r: Result<seq<int>, RunError>)
    ensures r.Success? <==> forall i :: 0 <= i < |cells| ==> ToInt(cells[i]).Some?
    ensures r.Success? ==>
              && |r.value| == |cells|
              && forall i :: 0 <= i < |cells| ==> ToInt(cells[i]) == Some(r.value[i])
    ensures r.Failure? ==>
              exists i :: && 0 <= i < |cells|
                          && ToInt(cells[i]) == None
                          && r.error == BadTableId(cells[i])
                          && forall j :: 0 <= j < i ==> ToInt(cells[j]).Some?
  {
    if cells == [] then Success([])
    else match ToInt(cells[0])
      case None => Failure(BadTableId(cells[0]))
      case Some(n) =>
        var rest := TableIds(cells[1..]);
        assert forall i :: 0 < i < |cells| ==> cells[i] == cells[1..][i - 1];
        Prefixed([n], rest)
  }

  /**
   * `[x for x in all_results if x not in df_list_integers]`: no longer than
   * the listing, and holding exactly the listed IDs the table does not hold.
   */
  function NetNew(all: seq<int>, existing: seq<int>): (r: seq<int>)
    ensures |r| <= |all|
    ensures forall x :: x in r <==> x in all && x !in existing
  {
    if all == [] then []
    else
      assert all == [all[0]] + all[1..];
      (if all[0] in existing then [] else [all[0]]) + NetNew(all[1..], existing)
  }

  /**
   * An ID occurs in the net-new list exactly as often as in the listing when
   * the table does not hold it, and not at all when it does: duplicates
   * from the listing are kept.
   */
  lemma {:induction false} NetNewCounts(all: seq<int>, existing: seq<int>, x: int)
    ensures multiset(NetNew(all, existing))[x] == if x in existing then 0 else multiset(all)[x]
  {
    if all != [] {
      var head := if all[0] in existing then [] else [all[0]];
      NetNewCounts(all[1..], existing, x);
      assert NetNew(all, existing) == head + NetNew(all[1..], existing);
      assert multiset(NetNew(all, existing)) == multiset(head) + multiset(NetNew(all[1..], existing));
      assert all == [all[0]] + all[1..];
      assert multiset(all) == multiset{all[0]} + multiset(all[1..]);
    }
  }

  /** The filter keeps the listing's order: it distributes over concatenation. */
  lemma {:induction false} NetNewSplit(a: seq<int>, b: seq<int>, existing: seq<int>)
    ensures NetNew(a + b, existing) == NetNew(a, existing) + NetNew(b, existing)
  {
    if a == [] {
      assert a + b == b;
    } else {
      assert (a + b)[1..] == a[1..] + b;
      NetNewSplit(a[1..], b, existing);
    }
  }

  /**
   * Convert the table IDs, then filter the listing: the IDs kept are the
   * listed ones no table cell converts to.
   */
  function Diff(all: seq<int>, cells: seq<Value>): (r: Result<seq<int>, RunError>)
    ensures r.Failure? <==> TableIds(cells).Failure?
    ensures r.Failure? ==> r.error == TableIds(cells).error
    ensures r.Success? ==> forall x :: x in r.value <==>
              x in all && forall i :: 0 <= i < |cells| ==> ToInt(cells[i]) != Some(x)
  {
    match TableIds(cells)
    case Failure(e) => Failure(e)
    case Success(ids) =>
      assert forall x :: x in ids <==> exists i :: 0 <= i < |cells| && ToInt(cells[i]) == Some(x);
      Success(NetNew(all, ids))
  }

  /**
   * The diff fails exactly when int() refuses some table cell; otherwise an
   * ID is net-new, as often as the listing holds it, exactly when no cell
   * converts to it.
   */
  lemma DiffSpec(all: seq<int>, cells: seq<Value>)
    ensures Diff(all, cells).Failure? <==> exists i :: 0 <= i < |cells| && ToInt(cells[i]).None?
    ensures Diff(all, cells).Success? ==> forall x ::
              multiset(Diff(all, cells).value)[x] ==
              if exists i :: 0 <= i < |cells| && ToInt(cells[i]) == Some(x) then 0 else multiset(all)[x]
  {
    var t := TableIds(cells);
    if t.Success? {
      forall x
        ensures multiset(Diff(all, cells).value)[x] ==
                if exists i :: 0 <= i < |cells| && ToInt(cells[i]) == Some(x) then 0 else multiset(all)[x]
      {
        NetNewCounts(all, t.value, x);
        if x in t.value {
          var i :| 0 <= i < |t.value| && t.value[i] == x;
          assert ToInt(cells[i]) == Some(x);
        }
      }
    }
  }

  /** Listing [1, 2, 3] against a table holding the text "2" leaves [1, 3]. */
  lemma DiffExample()
    ensures Diff([1, 2, 3], [Text("2")]) == Success([1, 3])
  {
    ParseTwo();
    assert [Text("2")][1..] == [];
    assert ToInt(Text("2")) == Some(2);
    assert TableIds([]) == Success([]);
    assert [2] + [] == [2];
    assert Prefixed([2], TableIds([])) == Success([2]);
    assert TableIds([Text("2")]) == Success([2]);
    assert [1, 2, 3][1..] == [2, 3] && [2, 3][1..] == [3] && [3][1..] == [];
    assert NetNew([3], [2]) == [3];
    assert NetNew([2, 3], [2]) == [3];
    assert NetNew([1, 2, 3], [2]) == [1, 3];
  }
}
