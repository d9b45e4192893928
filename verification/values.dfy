// Decoded remote values (the Python 2 objects the FQL client returns) and the
// few Python built-ins the core applies to them: truthiness, `or`, `dict.get`,
// `", ".join`, `str()` and `int()`.

module Values {
  import opened Base

  /** A naive timestamp, as `datetime.datetime` holds one. */
  datatype DateTime = DateTime(year: int, month: int, day: int, hour: int, minute: int, second: int)

  /** A decoded JSON value. A JSON object is kept as its list of entries in
      iteration order, so that `keys()` is a list as in Python 2. */
  datatype Value =
    | Null
    | Bool(b: bool)
    | Int(i: int)
    | Str(s: string)
    | List(items: seq<Value>)
    | Obj(entries: seq<(string, Value)>)

  /** Python 2's `sys.maxint` on a 64-bit platform. A decoded JSON integer
      in `-sys.maxint - 1 .. sys.maxint` has type `int`; one beyond that
      range has type `long`. */
  const MaxInt: int := 0x7FFF_FFFF_FFFF_FFFF

  predicate IsShortInt(i: int)
  {
    -MaxInt - 1 <= i <= MaxInt
  }

  /** One response record, or the body of a nested object. */
  type Mapping = seq<(string, Value)>

  /** Python truthiness: None, False, 0, "" and empty containers are false. */
  predicate Truthy(v: Value)
  {
    match v
    case Null => false
    case Bool(b) => b
    case Int(i) => i != 0
    case Str(s) => s != ""
    case List(items) => items != []
    case Obj(entries) => entries != []
  }

  /** Python's `a or b`. */
  function PyOr(a: Value, b: Value): Value
  {
    if Truthy(a) then a else b
  }

  /** `d.keys()`. */
  function Keys(m: Mapping): (ks: seq<string>)
    ensures |ks| == |m|
    ensures forall i :: 0 <= i < |m| ==> ks[i] == m[i].0
  {
    if m == [] then [] else [m[0].0] + Keys(m[1..])
  }

  /** `d[k]`, with `None` standing for the `KeyError`. A JSON object that
      repeats a name decodes to the value given last. */
  function Get(m: Mapping, k: string): (r: Option<Value>)
    ensures r.Some? <==> k in Keys(m)
    ensures r.Some? ==> (k, r.value) in m
  {
    if m == [] then None
    else
      match Get(m[1..], k)
      case Some(v) => Some(v)
      case None => if m[0].0 == k then Some(m[0].1) else None
  }

  /** The value `Get` finds is the one paired with the last occurrence of
      the key. */
  lemma {:induction false} GetIsLast(m: Mapping, k: string, i: nat)
    requires i < |m| && m[i].0 == k
    requires forall j :: i < j < |m| ==> m[j].0 != k
    ensures Get(m, k) == Some(m[i].1)
    decreases |m|
  {
    if i == 0 {
      assert k !in Keys(m[1..]);
    } else {
      GetIsLast(m[1..], k, i - 1);
    }
  }

  /** `d.get(k, None)`. */
  function GetOr(m: Mapping, k: string): Value
  {
    match Get(m, k)
    case Some(v) => v
    case None => Null
  }

  /** `sep.join(xs)`. */
  function Join(xs: seq<string>, sep: string): string
  {
    if |xs| == 0 then ""
    else if |xs| == 1 then xs[0]
    else xs[0] + sep + Join(xs[1..], sep)
  }

  predicate IsDigits(s: string)
  {
    |s| > 0 && forall i :: 0 <= i < |s| ==> '0' <= s[i] <= '9'
  }

  function Digit(d: nat): char
    requires d < 10
  {
    ('0' as int + d) as char
  }

  /** The decimal text of a natural number, without leading zeros. */
  function NatToDecimal(n: nat): (r: string)
    ensures IsDigits(r)
    decreases n
  {
    if n < 10 then [Digit(n)] else NatToDecimal(n / 10) + [Digit(n % 10)]
  }

  /** Python's `str(n)` and `"%d" % n` for an integer. */
  function IntToDecimal(n: int): string
  {
    if n < 0 then "-" + NatToDecimal(-n) else NatToDecimal(n)
  }

  /** The number a run of decimal digits denotes. */
  function DigitsValue(s: string): nat
    requires forall i :: 0 <= i < |s| ==> '0' <= s[i] <= '9'
  {
    if s == [] then 0 else DigitsValue(s[..|s| - 1]) * 10 + (s[|s| - 1] as int - '0' as int)
  }

  /** The blanks C's `isspace` accepts, which `PyInt_FromString` skips
      before and after the number and between the sign and the digits. */
  predicate IsSpace(c: char)
  {
    c == ' ' || c == '\t' || c == '\n' || c == '\r' || c == '\U{B}' || c == '\U{C}'
  }

  /** `unicode.isspace()` of Python 2.7 (Unicode 5.2): the ASCII blanks, the
      separators U+001C to U+001F, U+0085, and the Unicode space and line
      separators. */
  predicate IsUnicodeSpace(c: char)
  {
    IsSpace(c) || '\U{1C}' <= c <= '\U{1F}' || c == '\U{85}' || c == '\U{A0}'
    || c == '\U{1680}' || c == '\U{180E}' || '\U{2000}' <= c <= '\U{200A}'
    || c == '\U{2028}' || c == '\U{2029}' || c == '\U{202F}' || c == '\U{205F}' || c == '\U{3000}'
  }

  /** The code point of the digit zero of the run of ten decimal digits that
      holds code point `n`, if any: the decimal digits of Unicode 5.2, the
      database of Python 2.7, in increasing order. */
  function DecimalZero(n: int): (z: Option<int>)
    ensures z.Some? ==> z.value <= n < z.value + 10
  {
    if n < 0x30 then None else if n < 0x3A then Some(0x30)
    else if n < 0x660 then None else if n < 0x66A then Some(0x660)
    else if n < 0x6F0 then None else if n < 0x6FA then Some(0x6F0)
    else if n < 0x7C0 then None else if n < 0x7CA then Some(0x7C0)
    else if n < 0x966 then None else if n < 0x970 then Some(0x966)
    else if n < 0x9E6 then None else if n < 0x9F0 then Some(0x9E6)
    else if n < 0xA66 then None else if n < 0xA70 then Some(0xA66)
    else if n < 0xAE6 then None else if n < 0xAF0 then Some(0xAE6)
    else if n < 0xB66 then None else if n < 0xB70 then Some(0xB66)
    else if n < 0xBE6 then None else if n < 0xBF0 then Some(0xBE6)
    else if n < 0xC66 then None else if n < 0xC70 then Some(0xC66)
    else if n < 0xCE6 then None else if n < 0xCF0 then Some(0xCE6)
    else if n < 0xD66 then None else if n < 0xD70 then Some(0xD66)
    else if n < 0xE50 then None else if n < 0xE5A then Some(0xE50)
    else if n < 0xED0 then None else if n < 0xEDA then Some(0xED0)
    else if n < 0xF20 then None else if n < 0xF2A then Some(0xF20)
    else if n < 0x1040 then None else if n < 0x104A then Some(0x1040)
    else if n < 0x1090 then None else if n < 0x109A then Some(0x1090)
    else if n < 0x17E0 then None else if n < 0x17EA then Some(0x17E0)
    else if n < 0x1810 then None else if n < 0x181A then Some(0x1810)
    else if n < 0x1946 then None else if n < 0x1950 then Some(0x1946)
    else if n < 0x19D0 then None else if n < 0x19DA then Some(0x19D0)
    else if n < 0x1A80 then None else if n < 0x1A8A then Some(0x1A80)
    else if n < 0x1A90 then None else if n < 0x1A9A then Some(0x1A90)
    else if n < 0x1B50 then None else if n < 0x1B5A then Some(0x1B50)
    else if n < 0x1BB0 then None else if n < 0x1BBA then Some(0x1BB0)
    else if n < 0x1C40 then None else if n < 0x1C4A then Some(0x1C40)
    else if n < 0x1C50 then None else if n < 0x1C5A then Some(0x1C50)
    else if n < 0xA620 then None else if n < 0xA62A then Some(0xA620)
    else if n < 0xA8D0 then None else if n < 0xA8DA then Some(0xA8D0)
    else if n < 0xA900 then None else if n < 0xA90A then Some(0xA900)
    else if n < 0xA9D0 then None else if n < 0xA9DA then Some(0xA9D0)
    else if n < 0xAA50 then None else if n < 0xAA5A then Some(0xAA50)
    else if n < 0xABF0 then None else if n < 0xABFA then Some(0xABF0)
    else if n < 0xFF10 then None else if n < 0xFF1A then Some(0xFF10)
    else if n < 0x104A0 then None else if n < 0x104AA then Some(0x104A0)
    else if n < 0x1D7CE then None else if n < 0x1D7D8 then Some(0x1D7CE)
    else if n < 0x1D7D8 then None else if n < 0x1D7E2 then Some(0x1D7D8)
    else if n < 0x1D7E2 then None else if n < 0x1D7EC then Some(0x1D7E2)
    else if n < 0x1D7EC then None else if n < 0x1D7F6 then Some(0x1D7EC)
    else if n < 0x1D7F6 then None else if n < 0x1D800 then Some(0x1D7F6)
    else None
  }

  /** `unicodedata.decimal(c)`: the digit a decimal digit character stands
      for, in any script. */
  function DecimalValue(c: char): (d: Option<nat>)
    ensures d.Some? ==> d.value < 10
    ensures '0' <= c <= '9' ==> d == Some(c as int - '0' as int)
    ensures c as int < 0x80 && !('0' <= c <= '9') ==> d.None?
  {
    match DecimalZero(c as int)
    case Some(z) => Some(c as int - z)
    case None => None
  }

  /** One character of `PyUnicode_EncodeDecimal`: whitespace becomes a blank,
      a decimal digit its ASCII digit, another Latin-1 character other than
      NUL stays, and anything else cannot be encoded. */
  function EncodeDecimalChar(c: char): (b: Option<char>)
    ensures b.Some? ==> 0 < b.value as int < 256
    ensures b.None? <==> !IsUnicodeSpace(c) && DecimalValue(c).None? && !(0 < c as int < 256)
  {
    if IsUnicodeSpace(c) then Some(' ')
    else if DecimalValue(c).Some? then Some(Digit(DecimalValue(c).value))
    else if 0 < c as int < 256 then Some(c)
    else None
  }

  /** `PyUnicode_EncodeDecimal`, the first step of Python 2's `int()` on a
      unicode string; a character it cannot encode raises
      `UnicodeEncodeError`, a kind of `ValueError`. */
  function EncodeDecimal(s: string): (r: Result<string>)
    ensures r.Err? ==> r.error == ValueError
    ensures r.Ok? ==> |r.value| == |s|
    decreases |s|
  {
    if s == [] then Ok([])
    else
      match EncodeDecimalChar(s[0])
      case None => Err(ValueError)
      case Some(b) =>
        (match EncodeDecimal(s[1..])
         case Ok(rest) => Ok([b] + rest)
         case Err(err) => Err(err))
  }

  /** `EncodeDecimal` encodes character by character, and fails exactly on a
      character it cannot encode. */
  lemma {:induction false} EncodeDecimalPointwise(s: string)
    ensures EncodeDecimal(s).Ok? <==> forall i :: 0 <= i < |s| ==> EncodeDecimalChar(s[i]).Some?
    ensures EncodeDecimal(s).Ok? ==> forall i :: 0 <= i < |s| ==> EncodeDecimalChar(s[i]) == Some(EncodeDecimal(s).value[i])
    decreases |s|
  {
    if s != [] {
      EncodeDecimalPointwise(s[1..]);
      assert forall i :: 1 <= i < |s| ==> s[1..][i - 1] == s[i];
      if EncodeDecimal(s).Ok? {
        var r := EncodeDecimal(s).value;
        assert forall i :: 1 <= i < |s| ==> r[i] == EncodeDecimal(s[1..]).value[i - 1];
      }
    }
  }

  /** The result of `EncodeDecimal` is a string of Latin-1 bytes other than
      NUL, one per character: a blank for whitespace and the ASCII digit of
      the same value for a decimal digit of any script. */
  lemma EncodeDecimalSpec(s: string)
    ensures var r := EncodeDecimal(s);
      && (r.Ok? <==> forall i :: 0 <= i < |s| ==> EncodeDecimalChar(s[i]).Some?)
      && (r.Ok? ==> |r.value| == |s| && forall i :: 0 <= i < |s| ==> 0 < r.value[i] as int < 256)
      && (r.Ok? ==> forall i :: 0 <= i < |s| && IsUnicodeSpace(s[i]) ==> r.value[i] == ' ')
      && (r.Ok? ==> forall i :: 0 <= i < |s| && !IsUnicodeSpace(s[i]) && DecimalValue(s[i]).Some? ==>
            '0' <= r.value[i] <= '9' && r.value[i] as int - '0' as int == DecimalValue(s[i]).value)
  {
    EncodeDecimalPointwise(s);
  }

  function Strip(s: string): (t: string)
    ensures t == [] || (!IsSpace(t[0]) && !IsSpace(t[|t| - 1]))
    ensures (forall i :: 0 <= i < |s| ==> !IsSpace(s[i])) ==> t == s
    decreases |s|
  {
    if s != [] && IsSpace(s[0]) then Strip(s[1..])
    else if s != [] && IsSpace(s[|s| - 1]) then Strip(s[..|s| - 1])
    else s
  }

  /** `PyInt_FromString(s, NULL, 10)` on the encoded text, with its fallback
      to `PyLong_FromString` on overflow: blanks, an optional sign that
      blanks may follow, one or more decimal digits, blanks; anything else is
      a `ValueError`. */
  function ParseIntText(s: string): Result<int>
  {
    var t := Strip(s);
    if |t| > 0 && (t[0] == '-' || t[0] == '+') && IsDigits(Strip(t[1..])) then
      var n := DigitsValue(Strip(t[1..])) as int;
      Ok(if t[0] == '-' then -n else n)
    else if IsDigits(t) then
      Ok(DigitsValue(t))
    else
      Err(ValueError)
  }

  /** Python 2's `int(v)`. A decoded string is unicode, so it is first
      encoded by `EncodeDecimal` and then parsed. */
  function PyInt(v: Value): Result<int>
  {
    match v
    case Int(i) => Ok(i)
    case Bool(b) => Ok(if b then 1 else 0)
    case Str(s) =>
      (match EncodeDecimal(s)
       case Ok(t) => ParseIntText(t)
       case Err(err) => Err(err))
    case _ => Err(TypeError)
  }

  /** Python's `str(v)`. Strings are returned as they are; containers are
      rendered with the `repr` of their elements. */
  function PyStr(v: Value): string
    decreases v, 1
  {
    match v
    case Null => "None"
    case Bool(b) => if b then "True" else "False"
    case Int(i) => IntToDecimal(i)
    case Str(s) => s
    case List(items) =>
      "[" + Join(seq(|items|, k requires 0 <= k < |items| => PyRepr(items[k])), ", ") + "]"
    case Obj(entries) =>
      "{" + Join(seq(|entries|, k requires 0 <= k < |entries| =>
                   "u'" + entries[k].0 + "': " + PyRepr(entries[k].1)), ", ") + "}"
  }

  /** Python 2's `repr(v)`: decoded strings are unicode, hence the `u'...'`. */
  function PyRepr(v: Value): string
    decreases v, 2
  {
    match v
    case Str(s) => "u'" + s + "'"
    case _ => PyStr(v)
  }

  lemma {:induction false} DigitsValueOfDecimal(n: nat)
    ensures DigitsValue(NatToDecimal(n)) == n
    decreases n
  {
    if n >= 10 {
      DigitsValueOfDecimal(n / 10);
      var r := NatToDecimal(n);
      assert r[..|r| - 1] == NatToDecimal(n / 10);
    }
  }

  /** `EncodeDecimal` encodes character by character. */
  lemma EncodeDecimalOf(s: string, t: string)
    requires |s| == |t| && forall i :: 0 <= i < |s| ==> EncodeDecimalChar(s[i]) == Some(t[i])
    ensures EncodeDecimal(s) == Ok(t)
  {
    EncodeDecimalPointwise(s);
    assert EncodeDecimal(s).value == t;
  }

  /** Printable ASCII text comes through `EncodeDecimal` unchanged. */
  lemma EncodeDecimalPrintable(s: string)
    requires forall i :: 0 <= i < |s| ==> ' ' <= s[i] <= '~'
    ensures EncodeDecimal(s) == Ok(s)
  {
    forall i | 0 <= i < |s|
      ensures EncodeDecimalChar(s[i]) == Some(s[i])
    {
      if '0' <= s[i] <= '9' {
        assert Digit(s[i] as int - '0' as int) == s[i];
      }
    }
    EncodeDecimalOf(s, s);
  }

  lemma EncodeArabicIndic()
    ensures EncodeDecimal("\U{A0}\U{661}\U{662}") == Ok(" 12")
  {
    var s := "\U{A0}\U{661}\U{662}";
    assert s == ['\U{A0}', '\U{661}', '\U{662}'];
    assert EncodeDecimalChar('\U{A0}') == Some(' ');
    assert EncodeDecimalChar('\U{661}') == Some('1') by {
      assert DecimalValue('\U{661}') == Some(1);
    }
    assert EncodeDecimalChar('\U{662}') == Some('2') by {
      assert DecimalValue('\U{662}') == Some(2);
    }
    EncodeDecimalOf(s, " 12");
  }

  /** `int()` of a unicode string reads digits of any script and skips any
      Unicode whitespace: a no-break space before Arabic-Indic digits one and
      two reads as 12. */
  lemma PyIntUnicodeDigits()
    ensures PyInt(Str("\U{A0}\U{661}\U{662}")) == Ok(12)
  {
    EncodeArabicIndic();
    assert Strip(" 12") == "12";
    assert DigitsValue("12") == 12 by {
      assert "12"[..1] == "1";
    }
  }

  lemma EncodeIdeographicSpace()
    ensures EncodeDecimal("- 7\U{3000}") == Ok("- 7 ")
  {
    var u := "- 7\U{3000}";
    assert u == ['-', ' ', '7', '\U{3000}'];
    assert EncodeDecimalChar('-') == Some('-');
    assert EncodeDecimalChar(' ') == Some(' ');
    assert EncodeDecimalChar('7') == Some('7') by {
      assert Digit(7) == '7';
    }
    assert EncodeDecimalChar('\U{3000}') == Some(' ');
    EncodeDecimalOf(u, "- 7 ");
  }

  /** Blanks may follow the sign, and an ideographic space counts as a
      blank. */
  lemma PyIntBlankAfterSign()
    ensures PyInt(Str("- 7\U{3000}")) == Ok(-7)
  {
    EncodeIdeographicSpace();
    assert Strip("- 7 ") == "- 7";
    assert Strip(" 7") == "7";
    assert DigitsValue("7") == 7;
  }

  /** SUPERSCRIPT TWO is a digit but not a decimal digit: it is kept as a
      Latin-1 byte, which the parse then refuses. */
  lemma PyIntSuperscript()
    ensures PyInt(Str("\U{B2}")) == Err(ValueError)
  {
    var s := "\U{B2}";
    assert EncodeDecimalChar(s[0]) == Some(s[0]);
    EncodeDecimalOf(s, s);
    assert Strip(s) == s && !IsDigits(s);
  }

  /** A printable ASCII string is parsed as it is. */
  lemma PyIntOfPrintable(s: string)
    requires forall i :: 0 <= i < |s| ==> ' ' <= s[i] <= '~'
    ensures PyInt(Str(s)) == ParseIntText(s)
  {
    EncodeDecimalPrintable(s);
  }

  /** The text parse reads back the decimal text of an integer. */
  lemma ParseIntTextOfDecimal(n: int)
    ensures ParseIntText(IntToDecimal(n)) == Ok(n)
  {
    var m := if n < 0 then -n else n;
    var d := NatToDecimal(m);
    var t := IntToDecimal(n);
    assert Strip(t) == t by {
      assert forall i :: 0 <= i < |t| ==> !IsSpace(t[i]);
    }
    assert Strip(d) == d by {
      assert forall i :: 0 <= i < |d| ==> !IsSpace(d[i]);
    }
    assert DigitsValue(d) == m by {
      DigitsValueOfDecimal(m);
    }
    if n < 0 {
      assert t[0] == '-' && t[1..] == d;
    } else {
      assert t == d;
    }
  }

  /** `int()` reads back what `str()` writes for an integer. */
  lemma PyIntReadsPyStr(n: int)
    ensures PyInt(Str(PyStr(Int(n)))) == Ok(n)
  {
    var t := IntToDecimal(n);
    assert PyStr(Int(n)) == t;
    assert forall i :: 0 <= i < |t| ==> t[i] == '-' || '0' <= t[i] <= '9';
    PyIntOfPrintable(t);
    ParseIntTextOfDecimal(n);
  }
}
