/** The UUID leaf codec: `uuid.UUID(s)` on input and `UUID.hex` on output.

    A UUID is a 128-bit number (RFC 4122). Its `.hex` form is 32 lowercase
    hexadecimal digits with none of the hyphens of the string form in
    section 3 of RFC 4122. `UUID(s)` accepts that form and a few
    decorations: it drops every "urn:" and "uuid:", strips surrounding
    braces and drops every hyphen, then wants exactly 32 hex digits. */
module Uuid {
  import opened Results
  import opened Values

  /** Lowercase hex digit for 0..15. */
  function HexChar(d: int): (c: char)
    requires 0 <= d < 16
    ensures IsLowerHex(c)
  {
    if d < 10 then ('0' as int + d) as char else ('a' as int + d - 10) as char
  }

  predicate IsLowerHex(c: char) {
    ('0' <= c <= '9') || ('a' <= c <= 'f')
  }

  /** The value of one digit as `int(_, 16)` reads it, in either case. */
  function DigitValue(c: char): (r: Option<int>)
    ensures r.Some? ==> 0 <= r.value < 16
    ensures r.Some? <==> IsLowerHex(c) || ('A' <= c <= 'F')
  {
    if '0' <= c <= '9' then Some(c as int - '0' as int)
    else if 'a' <= c <= 'f' then Some(c as int - 'a' as int + 10)
    else if 'A' <= c <= 'F' then Some(c as int - 'A' as int + 10)
    else None
  }

  function Pow16(k: nat): nat {
    if k == 0 then 1 else 16 * Pow16(k - 1)
  }

  /** The last `k` hex digits of `n`, most significant first. */
  function ToHex(n: nat, k: nat): (s: string)
    ensures |s| == k
    ensures forall i :: 0 <= i < |s| ==> IsLowerHex(s[i])
  {
    if k == 0 then [] else ToHex(n / 16, k - 1) + [HexChar(n % 16)]
  }

  /** A string of hex digits read as a number, most significant first;
      `None` as soon as some character is not a hex digit. */
  function FromHex(s: string): (r: Option<nat>)
    ensures r.Some? <==> forall i :: 0 <= i < |s| ==> DigitValue(s[i]).Some?
    ensures r.Some? ==> r.value < Pow16(|s|)
  {
    if |s| == 0 then Some(0)
    else
      var prefix := FromHex(s[..|s| - 1]);
      var digit := DigitValue(s[|s| - 1]);
      assert forall i :: 0 <= i < |s| - 1 ==> s[..|s| - 1][i] == s[i];
      if prefix.Some? && digit.Some? then Some(16 * prefix.value + digit.value) else None
  }

  lemma {:induction false} FromToHex(n: nat, k: nat)
    requires n < Pow16(k)
    ensures FromHex(ToHex(n, k)) == Some(n)
  {
    if k > 0 {
      var s := ToHex(n, k);
      FromToHex(n / 16, k - 1);
      assert s[..|s| - 1] == ToHex(n / 16, k - 1);
    }
  }

  lemma {:induction false} ToFromHex(s: string)
    requires forall i :: 0 <= i < |s| ==> IsLowerHex(s[i])
    ensures FromHex(s).Some? && ToHex(FromHex(s).value, |s|) == s
  {
    if |s| > 0 {
      var p := s[..|s| - 1];
      ToFromHex(p);
      var m := FromHex(p).value;
      var d := DigitValue(s[|s| - 1]).value;
      var n := 16 * m + d;
      assert n / 16 == m && n % 16 == d;
      assert HexChar(d) == s[|s| - 1];
      assert s == p + [s[|s| - 1]];
    }
  }

  /** `UUID.hex`: `'%032x' % u`. */
  function Hex(u: U128): (s: string)
    ensures |s| == 32
    ensures forall i :: 0 <= i < |s| ==> IsLowerHex(s[i])
  {
    ToHex(u, 32)
  }

  /** `s.replace(pat, '')`: every occurrence of `pat`, scanning left to
      right without overlap, removed. */
  function RemoveAll(s: string, pat: string): (r: string)
    requires |pat| > 0
    ensures |r| <= |s|
    ensures |pat| == 1 ==> forall i :: 0 <= i < |r| ==> r[i] != pat[0]
    decreases |s|
  {
    if |s| == 0 then s
    else if pat <= s then RemoveAll(s[|pat|..], pat)
    else [s[0]] + RemoveAll(s[1..], pat)
  }

  predicate IsBrace(c: char) {
    c == '{' || c == '}'
  }

  /** `lstrip('{}')`: the longest suffix that does not start with a brace. */
  function StripLeading(s: string): (r: string)
    ensures |r| <= |s| && r == s[|s| - |r|..]
    ensures forall i :: 0 <= i < |s| - |r| ==> IsBrace(s[i])
    ensures |r| > 0 ==> !IsBrace(r[0])
  {
    if |s| > 0 && IsBrace(s[0]) then
      var r := StripLeading(s[1..]);
      assert s[1..][|s| - 1 - |r|..] == s[|s| - |r|..];
      r
    else s
  }

  /** `rstrip('{}')`: the longest prefix that does not end with a brace. */
  function StripTrailing(s: string): (r: string)
    ensures |r| <= |s| && r == s[..|r|]
    ensures forall i :: |r| <= i < |s| ==> IsBrace(s[i])
    ensures |r| > 0 ==> !IsBrace(r[|r| - 1])
  {
    if |s| > 0 && IsBrace(s[|s| - 1]) then
      var r := StripTrailing(s[..|s| - 1]);
      assert s[..|s| - 1][..|r|] == s[..|r|];
      r
    else s
  }

  /** The string `UUID(s)` hands to `int(_, 16)`:
      `s.replace('urn:', '').replace('uuid:', '').strip('{}').replace('-', '')`. */
  function Normalise(s: string): (r: string)
    ensures |r| <= |s|
    ensures forall i :: 0 <= i < |r| ==> r[i] != '-'
  {
    var t := RemoveAll(RemoveAll(s, "urn:"), "uuid:");
    RemoveAll(StripTrailing(StripLeading(t)), "-")
  }

  /** `UUID(s).int` for a string `s`: a wrong length or a non-hex digit is a
      `ValueError`. */
  function Parse(s: string): (r: Result<U128>)
    ensures r.Ok? <==>
      |Normalise(s)| == 32 && forall i :: 0 <= i < 32 ==> DigitValue(Normalise(s)[i]).Some?
    ensures r.Raise? ==> r.err == ValueError
  {
    var t := Normalise(s);
    if |t| != 32 then Raise(ValueError)
    else
      match FromHex(t)
      case None => Raise(ValueError)
      case Some(n) =>
        Pow16Is128Bits();
        Ok(n)
  }

  lemma Pow16Is128Bits()
    ensures Pow16(32) == UUID_BOUND
  {
    Pow16Shift(0);
    Pow16Shift(8);
    Pow16Shift(16);
    Pow16Shift(24);
  }

  lemma Pow16Shift(k: nat)
    ensures Pow16(k + 8) == Pow16(k) * 0x1_0000_0000
  {
    assert Pow16(k + 2) == 0x100 * Pow16(k);
    assert Pow16(k + 4) == 0x100 * Pow16(k + 2);
    assert Pow16(k + 6) == 0x100 * Pow16(k + 4);
    assert Pow16(k + 8) == 0x100 * Pow16(k + 6);
  }

  /** `UUID(json)` for any value: a string is parsed. `UUID(None)` finds no
      argument and raises `TypeError`. Any other value reaches
      `json.replace('urn:', '')`: a datetime's `replace` does not take a
      string and raises `TypeError`, and the other objects have no
      `replace` and raise `AttributeError`. */
  function Construct(json: Val): (r: Result<Val>)
    ensures r.Ok? <==> json.VStr? && Parse(json.s).Ok?
    ensures r.Ok? ==> r.value == VUuid(Parse(json.s).value)
    ensures r.Raise? ==> r.err == (if json.VStr? then ValueError
                                   else if json.VNone? || json.VDatetime? then TypeError
                                   else AttributeError)
  {
    match json
    case VStr(s) =>
      var n :- Parse(s);
      Ok(VUuid(n))
    case VNone => Raise(TypeError)
    case VDatetime(_) => Raise(TypeError)
    case _ => Raise(AttributeError)
  }

  lemma {:induction false} RemoveAbsent(s: string, pat: string)
    requires |pat| > 0
    requires forall i :: 0 <= i < |s| ==> s[i] != pat[0]
    ensures RemoveAll(s, pat) == s
    decreases |s|
  {
    if |s| > 0 {
      assert s[0] != pat[0];
      RemoveAbsent(s[1..], pat);
      assert s == [s[0]] + s[1..];
    }
  }

  /** A string without `u`, braces or dashes passes `Normalise` unchanged. */
  lemma NormalisePlain(s: string)
    requires forall i :: 0 <= i < |s| ==> s[i] != 'u' && s[i] != '-' && !IsBrace(s[i])
    ensures Normalise(s) == s
  {
    RemoveAbsent(s, "urn:");
    RemoveAbsent(s, "uuid:");
    RemoveAbsent(s, "-");
  }

  /** A string of lowercase hex digits passes `Normalise` unchanged. */
  lemma NormaliseHex(s: string)
    requires forall i :: 0 <= i < |s| ==> IsLowerHex(s[i])
    ensures Normalise(s) == s
  {
    NormalisePlain(s);
  }

  /** A string without separators that holds a character other than a hex
      digit is refused. */
  lemma ParseRejectsNonHex(s: string, k: nat)
    requires forall i :: 0 <= i < |s| ==> s[i] != 'u' && s[i] != '-' && !IsBrace(s[i])
    requires k < |s| && DigitValue(s[k]).None?
    ensures Parse(s) == Raise(ValueError)
  {
    NormalisePlain(s);
  }

  /** Decoding what `.hex` printed gives back the same UUID. */
  lemma HexRoundTrip(u: U128)
    ensures Parse(Hex(u)) == Ok(u)
  {
    NormaliseHex(Hex(u));
    Pow16Is128Bits();
    FromToHex(u, 32);
  }

  /** Conversely, 32 lowercase hex digits are parsed and printed back
      unchanged: `.hex` is the canonical form. */
  lemma CanonicalRoundTrip(s: string)
    requires |s| == 32
    requires forall i :: 0 <= i < |s| ==> IsLowerHex(s[i])
    ensures Parse(s).Ok? && Hex(Parse(s).value) == s
  {
    NormaliseHex(s);
    ToFromHex(s);
  }

  /** The 8-4-4-4-12 form of 32 hex digits, as `str(uuid)` prints it. */
  function Dashed(s: string): (d: string)
    requires |s| == 32
    ensures |d| == 36
  {
    s[..8] + "-" + s[8..12] + "-" + s[12..16] + "-" + s[16..20] + "-" + s[20..]
  }

  /** Removing a one-character pattern distributes over concatenation. */
  lemma {:induction false} RemoveAllConcat(a: string, b: string, pat: string)
    requires |pat| == 1
    ensures RemoveAll(a + b, pat) == RemoveAll(a, pat) + RemoveAll(b, pat)
    decreases |a|
  {
    if |a| > 0 {
      assert (a + b)[1..] == a[1..] + b;
      assert (pat <= a + b) == (pat <= a) == (a[0] == pat[0]);
      RemoveAllConcat(a[1..], b, pat);
    } else {
      assert a + b == b;
    }
  }

  /** No character that the first normalisation steps act on. */
  predicate Plain(s: string) {
    forall i :: 0 <= i < |s| ==> s[i] != 'u' && !IsBrace(s[i])
  }

  lemma PlainJoin(a: string, b: string)
    requires Plain(a) && Plain(b)
    ensures Plain(a + "-" + b)
  {
    var c := a + "-" + b;
    forall i | 0 <= i < |c| ensures c[i] != 'u' && !IsBrace(c[i]) {
      if i < |a| { assert c[i] == a[i]; }
      else if i > |a| { assert c[i] == b[i - |a| - 1]; }
    }
  }

  /** A plain string loses only its dashes to `Normalise`. */
  lemma NormaliseDashes(d: string)
    requires Plain(d)
    ensures Normalise(d) == RemoveAll(d, "-")
  {
    RemoveAbsent(d, "urn:");
    RemoveAbsent(d, "uuid:");
  }

  /** A lone dash is removed entirely. */
  lemma DashGone(d: string)
    requires d == "-"
    ensures RemoveAll(d, "-") == ""
  {
    assert "-" <= d;
    assert d[1..] == "";
  }

  /** Removing the dash that joins `a` to a dash-free `b`. */
  lemma DropDash(a: string, b: string)
    requires forall i :: 0 <= i < |b| ==> b[i] != '-'
    ensures RemoveAll(a + "-" + b, "-") == RemoveAll(a, "-") + b
  {
    var ad := a + "-";
    RemoveAllConcat(ad, b, "-");
    RemoveAllConcat(a, "-", "-");
    DashGone("-");
    RemoveAbsent(b, "-");
    assert RemoveAll(ad, "-") == RemoveAll(a, "-");
  }

  /** The dashed form holds no `u` and no brace. */
  lemma DashedPlain(s: string)
    requires |s| == 32 && Plain(s)
    ensures Plain(Dashed(s))
  {
    var p1, p2, p3, p4, p5 := s[..8], s[8..12], s[12..16], s[16..20], s[20..];
    assert Plain(p1) && Plain(p2) && Plain(p3) && Plain(p4) && Plain(p5);
    PlainJoin(p1, p2);
    PlainJoin(p1 + "-" + p2, p3);
    PlainJoin(p1 + "-" + p2 + "-" + p3, p4);
    PlainJoin(p1 + "-" + p2 + "-" + p3 + "-" + p4, p5);
  }

  /** Removing the dashes of the dashed form gives the digits back. */
  lemma DashedUndashed(s: string)
    requires |s| == 32
    requires forall i :: 0 <= i < |s| ==> s[i] != '-'
    ensures RemoveAll(Dashed(s), "-") == s
  {
    var p1, p2, p3, p4, p5 := s[..8], s[8..12], s[12..16], s[16..20], s[20..];
    var a2 := p1 + "-" + p2;
    var a3 := a2 + "-" + p3;
    var a4 := a3 + "-" + p4;
    assert Dashed(s) == a4 + "-" + p5;
    RemoveAbsent(p1, "-");
    DropDash(p1, p2);
    DropDash(a2, p3);
    DropDash(a3, p4);
    DropDash(a4, p5);
    assert p1 + p2 + p3 + p4 + p5 == s;
  }

  /** `UUID` ignores the dashes of the 8-4-4-4-12 form: it denotes the same
      UUID as the bare 32 digits. */
  lemma DashedParse(s: string)
    requires |s| == 32
    requires forall i :: 0 <= i < |s| ==> IsLowerHex(s[i])
    ensures Parse(Dashed(s)) == Parse(s)
  {
    DashedPlain(s);
    NormaliseDashes(Dashed(s));
    DashedUndashed(s);
    NormaliseHex(s);
  }

  /** `UUID(json)` gives the same UUID for the dashed form as for the bare digits. */
  lemma DashedConstruct(s: string)
    requires |s| == 32
    requires forall i :: 0 <= i < |s| ==> IsLowerHex(s[i])
    ensures Construct(VStr(Dashed(s))) == Construct(VStr(s))
  {
    DashedParse(s);
  }
}
