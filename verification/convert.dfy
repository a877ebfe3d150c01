/** Parameter helpers of `utils/convert.py`: the string step of `format_float`
    and `comma_list` with its list-likeness test. */
module Convert {
  import opened Wrappers
  import Strings

  /** The string step of `format_float`: all trailing '0's and then all trailing
      '.'s are stripped from the decimal text of the rounded float. Producing that
      text (`round` and float `repr`) is not modelled; the text is the input. */
  function TrimFloatText(text: string): (r: string)
    ensures r <= text
    ensures |r| == 0 || r[|r| - 1] != '.'
  {
    Strings.RStrip(Strings.RStrip(text, '0'), '.')
  }

  predicate AllZeros(s: string)
  {
    forall i :: 0 <= i < |s| ==> s[i] == '0'
  }

  /** `RStrip` is the only prefix that does not end in `c` and leaves only `c`s behind. */
  lemma RStripUnique(s: string, c: char, r: string)
    requires r <= s
    requires |r| == 0 || r[|r| - 1] != c
    requires forall i :: |r| <= i < |s| ==> s[i] == c
    ensures Strings.RStrip(s, c) == r
  {
    var t := Strings.RStrip(s, c);
    assert |r| > 0 ==> s[|r| - 1] == r[|r| - 1];
    assert |t| > 0 ==> s[|t| - 1] == t[|t| - 1];
    assert |t| == |r|;
    assert t == s[..|t|] && r == s[..|r|];
  }

  /** On the text of a decimal number `whole.frac`, the trim leaves the whole
      part untouched: it drops the fraction's trailing zeros, and the point too
      when the fraction was all zeros ("100.0" gives "100", "40.0010" gives "40.001"). */
  lemma TrimDecimal(whole: string, frac: string)
    requires '.' !in whole && '.' !in frac
    ensures TrimFloatText(whole + "." + frac) ==
      if AllZeros(frac) then whole else whole + "." + Strings.RStrip(frac, '0')
  {
    var s := whole + "." + frac;
    var f := Strings.RStrip(frac, '0');
    if AllZeros(frac) {
      var w := whole + ".";
      RStripUnique(s, '0', w);
      if |whole| > 0 { assert whole[|whole| - 1] in whole; }
      RStripUnique(w, '.', whole);
    } else {
      var r := whole + "." + f;
      assert |f| > 0;
      assert f[|f| - 1] in frac;
      forall i | |r| <= i < |s|
        ensures s[i] == '0'
      {
        assert s[i] == frac[i - |whole| - 1];
      }
      RStripUnique(s, '0', r);
      RStripUnique(r, '.', r);
    }
  }

  /** The documented results: 40 and 40.0 print as "40.0" and give "40", 40.1
      gives "40.1", 40.001 and 40.0010 print as "40.001" and give "40.001". */
  lemma TrimExamples()
    ensures TrimFloatText("40.0") == "40"
    ensures TrimFloatText("40.1") == "40.1"
    ensures TrimFloatText("40.001") == "40.001"
  {
    RStripUnique("40.0", '0', "40.");
    RStripUnique("40.", '.', "40");
    RStripUnique("40.1", '0', "40.1");
    RStripUnique("40.1", '.', "40.1");
    RStripUnique("40.001", '0', "40.001");
    RStripUnique("40.001", '.', "40.001");
  }

  /** Once the fraction keeps a non-zero digit, trimming again changes nothing. */
  lemma TrimIdempotentOnFractions(whole: string, frac: string)
    requires '.' !in whole && '.' !in frac
    requires !AllZeros(frac)
    ensures TrimFloatText(TrimFloatText(whole + "." + frac)) == TrimFloatText(whole + "." + frac)
  {
    var f := Strings.RStrip(frac, '0');
    TrimDecimal(whole, frac);
    assert forall i :: 0 <= i < |f| ==> f[i] == frac[i];
    assert |f| > 0 && f[|f| - 1] != '0';
    TrimDecimal(whole, f);
    RStripUnique(f, '0', f);
  }

  /** Trimming is not idempotent in general: a text without a point loses its
      trailing zeros too, so "40.0" trims to "40" and "40" trims to "4". */
  lemma TrimNotIdempotentOnWholeNumbers()
    ensures TrimFloatText("40.0") == "40"
    ensures TrimFloatText(TrimFloatText("40.0")) == "4"
  {
    TrimExamples();
    RStripUnique("40", '0', "4");
    RStripUnique("4", '.', "4");
  }

  /** A value passed to `comma_list`, as far as `_is_list` can tell it apart:
      a `dict`, a `str`, or any other object with the methods it has and the
      `str` of each element its iteration yields. */
  datatype Arg =
    | DictArg(keys: seq<string>)
    | StrArg(s: string)
    | ObjectArg(typeName: string, hasStrip: bool, hasGetItem: bool, hasIter: bool, items: seq<string>)

  /** A Python `list` of elements whose `str` forms are `items`. */
  function ListArg(items: seq<string>): Arg
  {
    ObjectArg("list", false, true, true, items)
  }

  function TypeName(a: Arg): string
  {
    match a
    case DictArg(_) => "dict"
    case StrArg(_) => "str"
    case ObjectArg(name, _, _, _, _) => name
  }

  /** `_is_list`: dicts and strings are refused although both are iterable. */
  predicate IsList(a: Arg)
  {
    match a
    case DictArg(_) => false
    case StrArg(_) => false
    case ObjectArg(_, strip, getItem, iter, _) => (!strip && getItem) || iter
  }

  datatype TypeError = TypeError(message: string)

  /** `",".join(map(str, items))` */
  function CommaJoin(items: seq<string>): string
  {
    Strings.Join(items, ",")
  }

  /** `comma_list`: the comma-joined elements of a list-like argument, a type
      error naming the argument's type otherwise. */
  function CommaList(a: Arg): (r: Result<string, TypeError>)
    ensures r.Success? <==> a.ObjectArg? && ((!a.hasStrip && a.hasGetItem) || a.hasIter)
    ensures a.StrArg? || a.DictArg? ==> r == Failure(TypeError("Expected a list or tuple, but got " + TypeName(a)))
    ensures r.Success? && |a.items| == 0 ==> r.value == ""
    ensures r.Success? && |a.items| == 1 ==> r.value == a.items[0]
  {
    if !IsList(a) then Failure(TypeError("Expected a list or tuple, but got " + TypeName(a)))
    else Success(CommaJoin(a.items))
  }

  /** When no element contains ',', splitting the result on ',' gives the
      elements back, in order (an empty list excepted: `"".split(",")` is `[""]`). */
  lemma CommaListRoundTrip(a: Arg)
    requires IsList(a)
    requires |a.items| >= 1
    requires forall i :: 0 <= i < |a.items| ==> ',' !in a.items[i]
    ensures CommaList(a).Success? && Strings.Split(CommaList(a).value, ',') == a.items
  {
    Strings.SplitJoin(a.items, ',');
  }
}
