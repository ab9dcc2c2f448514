/**
 * The loosely typed values the maintenance forms pass around (a form control may hold
 * null, a string, a number or an array of numbers) and the conversions the screens apply
 * to them: the comma-separated id lists stored by the backend, their parsing back into
 * arrays, and the coercion of a catalogue value into a number.
 */
module FormValues {
  import opened Wrappers
  import opened Text

  /** A dynamic value: `null`/`undefined`, a string, a number, or an array of numbers. */
  datatype Raw = RNull | RStr(s: string) | RNum(x: JsNum) | RArray(xs: seq<JsNum>)

  /** JavaScript truthiness: `null`, `""`, `0` and `NaN` are false; every array is true. */
  predicate Truthy(v: Raw) {
    match v
    case RNull => false
    case RStr(s) => s != ""
    case RNum(x) => x.Num? && x.n != 0
    case RArray(_) => true
  }

  /** `String(v)`. */
  function JsString(v: Raw): string {
    match v
    case RNull => "null"
    case RStr(s) => s
    case RNum(x) => ShowNum(x)
    case RArray(xs) => JoinNums(xs)
  }

  /** `v ? String(v).split(',').map(Number) : []`, how a stored id list is loaded into a multi-select. */
  function SplitIds(v: Raw): (r: seq<JsNum>)
    ensures !Truthy(v) ==> r == []
    ensures Truthy(v) ==> |r| >= 1
  {
    if Truthy(v) then SplitNums(JsString(v)) else []
  }

  /** `convertirArrayAString`: an array is joined with `,`, a string passes through, anything else is `""`. */
  function ConvertirArrayAString(v: Raw): (r: string)
    ensures v.RArray? ==> (r == "" <==> v.xs == [])
    ensures v.RStr? ==> r == v.s
    ensures v.RNull? || v.RNum? ==> r == ""
  {
    match v
    case RArray(xs) => JoinNums(xs)
    case RStr(s) => s
    case _ => ""
  }

  /**
   * Saving a selection and loading it back gives the same selection: the stored string of
   * a non-empty array splits back into it, and an empty array is stored as `""`, which
   * loads as the empty selection.
   */
  lemma CsvRoundTrip(xs: seq<JsNum>)
    ensures SplitIds(RStr(ConvertirArrayAString(RArray(xs)))) == xs
  {
    if xs != [] {
      SplitNumsJoinNums(xs);
    }
  }

  /** Empty pieces read as 0, since `Number("")` is 0: `"a,,b"` loads as `[a, 0, b]`. */
  lemma EmptyPieceIsZero(a: nat, b: nat)
    ensures SplitIds(RStr(ShowNat(a) + ",," + ShowNat(b))) == [Num(a), Num(0), Num(b)]
  {
    ShowNatNoComma(a);
    ShowNatNoComma(b);
    SplitIdsEmptyPiece(ShowNat(a), ShowNat(b));
    NumberOfShowNat(a);
    NumberOfShowNat(b);
  }

  lemma SplitIdsEmptyPiece(p: string, q: string)
    requires ',' !in p && ',' !in q
    ensures SplitIds(RStr(p + ",," + q)) == [NumberOf(p), Num(0), NumberOf(q)]
  {
    var s := p + ",," + q;
    assert s[|p|] == ',';
    SplitEmptyPiece(p, q);
    assert SplitIds(RStr(s)) == NumbersOf([p, "", q]);
    NumberOfEmpty();
    var r := NumbersOf([p, "", q]);
    assert r == [NumberOf(p), Num(0), NumberOf(q)];
  }

  lemma SplitEmptyPiece(p: string, q: string)
    requires ',' !in p && ',' !in q
    ensures Split(p + ",," + q) == [p, "", q]
  {
    assert p + ",," + q == p + "," + ("" + "," + q);
    SplitPrepend(p, "" + "," + q);
    SplitPrepend("", q);
    SplitNoComma(q);
  }

  lemma ShowNatNoComma(n: nat)
    ensures ',' !in ShowNat(n)
  {
    var s := ShowNat(n);
    assert forall i | 0 <= i < |s| :: s[i] != ',' by {
      assert AllDigits(s);
    }
  }

  lemma NumberOfEmpty()
    ensures NumberOf("") == Num(0)
  {
    assert Trim("") == "";
  }

  /** An array is truthy even when empty: `String([])` is `""`, which loads as `[0]`. */
  lemma EmptyArrayLoadsAsZero()
    ensures SplitIds(RArray([])) == [Num(0)]
  {
    assert Split("") == [""];
    NumberOfEmpty();
  }

  /**
   * `convertirANumero`: `null` and `""` give null; anything else is read by `parseInt`,
   * and a value `parseInt` cannot read gives null.
   */
  function ConvertirANumero(v: Raw): (r: Option<int>)
    ensures v == RNull || v == RStr("") ==> r == None
    ensures v != RNull && v != RStr("") ==> r == ParseInt(JsString(v))
  {
    if v == RNull || v == RStr("") then None else ParseInt(JsString(v))
  }

  /** A number coerces to itself, and so does its decimal rendering; NaN coerces to null. */
  lemma ConvertirANumeroOfNumbers(i: int)
    ensures ConvertirANumero(RNum(Num(i))) == Some(i)
    ensures ConvertirANumero(RStr(ShowInt(i))) == Some(i)
    ensures ConvertirANumero(RNum(NaN)) == None
  {
    ParseIntShow(i);
    var s := "NaN";
    assert TrimStart(s) == s;
    assert !IsDigit(s[0]);
  }

  // ---------------------------------------------------------------- integer id lists

  /** `parts.map(p => parseInt(p.trim(), 10)).filter(id => !isNaN(id))`. */
  function ParsedIds(parts: seq<string>): (r: seq<int>)
    ensures |r| <= |parts|
  {
    if parts == [] then []
    else
      match ParseInt(Trim(parts[0]))
      case Some(i) => [i] + ParsedIds(parts[1..])
      case None => ParsedIds(parts[1..])
  }

  /** The ids of a comma-separated string, unreadable pieces dropped. */
  function IdsOf(s: string): seq<int> {
    ParsedIds(Split(s))
  }

  /** How an integer list is written into a comma-separated string. */
  function ShowInts(xs: seq<int>): (r: seq<string>)
    ensures |r| == |xs|
    ensures forall i | 0 <= i < |xs| :: r[i] == ShowInt(xs[i])
  {
    seq(|xs|, i requires 0 <= i < |xs| => ShowInt(xs[i]))
  }

  lemma {:induction false} ParsedIdsShow(xs: seq<int>)
    ensures ParsedIds(ShowInts(xs)) == xs
  {
    if xs != [] {
      ParsedIdsShow(xs[1..]);
      TrimShowInt(xs[0]);
      ParseIntShow(xs[0]);
      assert ShowInts(xs)[1..] == ShowInts(xs[1..]);
    }
  }

  /** Any list of integers written with `join(',')` parses back into itself, duplicates and order kept. */
  lemma IdsOfJoin(xs: seq<int>)
    ensures IdsOf(Join(ShowInts(xs))) == xs
  {
    if xs == [] {
      assert Split("") == [""];
      assert Trim("") == "";
    } else {
      SplitJoin(ShowInts(xs));
      ParsedIdsShow(xs);
    }
  }

  /** A blank string holds no ids (so the screens' explicit blank check changes nothing). */
  lemma IdsOfBlank(s: string)
    requires Trim(s) == ""
    ensures IdsOf(s) == []
  {
    assert forall i | 0 <= i < |s| :: IsSpace(s[i]) by {
      BlankChars(s);
    }
    assert ',' !in s;
    SplitNoComma(s);
  }

  lemma {:induction false} BlankChars(s: string)
    requires Trim(s) == ""
    ensures forall i | 0 <= i < |s| :: IsSpace(s[i])
  {
    if s != [] {
      if IsSpace(s[0]) {
        assert TrimStart(s) == TrimStart(s[1..]);
        BlankChars(s[1..]);
        assert forall i | 1 <= i < |s| :: s[i] == s[1..][i - 1];
      } else {
        assert TrimStart(s) == s;
        assert TrimEnd(s) != [] by {
          if TrimEnd(s) == [] {
            TrimEndEmpty(s);
          }
        }
      }
    }
  }

  lemma {:induction false} TrimEndEmpty(s: string)
    requires s != [] && !IsSpace(s[0])
    ensures TrimEnd(s) != []
  {
    if IsSpace(s[|s| - 1]) {
      TrimEndEmpty(s[..|s| - 1]);
    }
  }
}
