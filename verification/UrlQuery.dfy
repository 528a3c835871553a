/**
 * The percent-encoder of src/oauth/mod.rs (sections 2.1 and 2.3 of RFC 3986) and the query of the
 * authorize URL that is built with it.
 */
module UrlQuery {
  import opened Base

  const HEX := "0123456789ABCDEF"

  predicate Unreserved(b: int) {
    'A' as int <= b <= 'Z' as int || 'a' as int <= b <= 'z' as int || '0' as int <= b <= '9' as int
    || b == '-' as int || b == '_' as int || b == '.' as int || b == '~' as int
  }

  function Escape(b: byte): string {
    if Unreserved(b) then [b as char] else ['%', HEX[b / 16], HEX[b % 16]]
  }

  function Percent(s: bytes): string {
    if s == [] then "" else Escape(s[0]) + Percent(s[1..])
  }

  /** src/oauth/mod.rs, urlencoding. */
  method UrlEncode(s: bytes) returns (out: string)
    ensures out == Percent(s)
  {
    out := "";
    ghost var rest := s;
    for i := 0 to |s|
      invariant rest == s[i..] && out + Percent(rest) == Percent(s)
    {
      var b := s[i];
      Assoc(out, Escape(b), Percent(rest[1..]));
      if Unreserved(b) {
        out := out + [b as char];
      } else {
        out := out + ['%', HEX[b / 16], HEX[b % 16]];
      }
      rest := rest[1..];
    }
  }

  function Nibble(c: char): Option<nat> {
    if '0' <= c <= '9' then Some(c as int - '0' as int)
    else if 'A' <= c <= 'F' then Some(c as int - 'A' as int + 10)
    else if 'a' <= c <= 'f' then Some(c as int - 'a' as int + 10)
    else None
  }

  /** A decoder in the sense of section 2.1 of RFC 3986; a stray '%' is an error. */
  function Unpercent(s: string): Option<bytes> {
    if s == "" then
      Some([])
    else if s[0] != '%' then
      var rest := Unpercent(s[1..]);
      if rest.None? || s[0] as int >= 128 then None else Some([s[0] as int] + rest.value)
    else if |s| < 3 then
      None
    else
      var hi, lo, rest := Nibble(s[1]), Nibble(s[2]), Unpercent(s[3..]);
      if hi.None? || lo.None? || rest.None? then None else Some([16 * hi.value + lo.value] + rest.value)
  }

  lemma HexDigit(n: nat)
    requires n < 16
    ensures Nibble(HEX[n]) == Some(n) && Unreserved(HEX[n] as int) && HEX[n] != '%'
  {
  }

  lemma UnpercentPlain(c: char, rest: string)
    requires Unpercent(rest).Some? && c != '%' && c as int < 128
    ensures Unpercent([c] + rest) == Some([c as int] + Unpercent(rest).value)
  {
  }

  lemma UnpercentHex(h: char, l: char, rest: string)
    requires Unpercent(rest).Some? && Nibble(h).Some? && Nibble(l).Some?
    ensures Unpercent(['%', h, l] + rest) == Some([16 * Nibble(h).value + Nibble(l).value] + Unpercent(rest).value)
  {
  }

  lemma UnpercentEscape(b: byte, rest: string)
    requires Unpercent(rest).Some?
    ensures Unpercent(Escape(b) + rest) == Some([b] + Unpercent(rest).value)
  {
    if Unreserved(b) {
      UnpercentPlain(b as char, rest);
    } else {
      HexDigit(b / 16);
      HexDigit(b % 16);
      UnpercentHex(HEX[b / 16], HEX[b % 16], rest);
    }
  }

  /** Percent-decoding gives back what was encoded, for every sequence of bytes. */
  lemma {:induction false} PercentRoundTrip(s: bytes)
    ensures Unpercent(Percent(s)) == Some(s)
  {
    if s != [] {
      PercentRoundTrip(s[1..]);
      assert s == [s[0]] + s[1..];
      UnpercentEscape(s[0], Percent(s[1..]));
    }
  }

  /** Only unreserved characters and '%' are written, so '&', '=' and '+' are never ambiguous. */
  lemma {:induction false} PercentAlphabet(s: bytes)
    ensures forall c :: c in Percent(s) ==> c == '%' || Unreserved(c as int)
  {
    if s != [] {
      HexDigit(s[0] / 16);
      HexDigit(s[0] % 16);
      PercentAlphabet(s[1..]);
    }
  }

  /** Text of unreserved characters is written as it stands, and no other text is. */
  lemma {:induction false} PercentFixes(s: bytes)
    ensures |s| <= |Percent(s)|
    ensures |Percent(s)| == |s| <==> forall i :: 0 <= i < |s| ==> Unreserved(s[i])
    ensures |Percent(s)| == |s| ==> forall i :: 0 <= i < |s| ==> Percent(s)[i] as int == s[i]
  {
    if s != [] {
      PercentFixes(s[1..]);
    }
  }

  /** Section 2.3 of RFC 3986 by the numbers: letters, digits, and four marks. */
  predicate InUnreserved(b: byte) {
    65 <= b <= 90 || 97 <= b <= 122 || 48 <= b <= 57 || b in {45, 95, 46, 126}
  }

  /** A byte of that set stands for itself; any other is a percent sign and its two upper-case digits. */
  lemma EscapeExactly(b: byte)
    ensures
      if InUnreserved(b) then Percent([b]) == [b as char]
      else
        && |Percent([b])| == 3 && Percent([b])[0] == '%'
        && Upper(Percent([b])[1]) == Some(b / 16) && Upper(Percent([b])[2]) == Some(b % 16)
  {
    assert [b][1..] == [];
    assert Percent([b]) == Escape(b) + "" == Escape(b);
    HexDigit(b / 16);
    HexDigit(b % 16);
    UpperHex(b / 16);
    UpperHex(b % 16);
  }

  function Upper(c: char): Option<nat> {
    if 48 <= c as int <= 57 then Some(c as int - 48) else if 65 <= c as int <= 70 then Some(c as int - 55) else None
  }

  lemma UpperHex(n: nat)
    requires n < 16
    ensures Upper(HEX[n]) == Some(n)
  {
  }

  // ----- the query of the authorize URL -----

  type Pairs = seq<(bytes, bytes)>

  function Field(p: (bytes, bytes)): string {
    Percent(p.0) + "=" + Percent(p.1)
  }

  function Fields(ps: Pairs): seq<string> {
    seq(|ps|, i requires 0 <= i < |ps| => Field(ps[i]))
  }

  function Join(parts: seq<string>, sep: char): string {
    if parts == [] then "" else if |parts| == 1 then parts[0] else parts[0] + [sep] + Join(parts[1..], sep)
  }

  /** The query: each pair percent-encoded, in order. */
  function Query(ps: Pairs): string {
    Join(Fields(ps), '&')
  }

  // An independent reader: split on '&', split each field on its first '=', decode both halves.

  function Before(s: string, c: char): string {
    if s == "" || s[0] == c then "" else [s[0]] + Before(s[1..], c)
  }

  function Split(s: string, sep: char): (parts: seq<string>)
    decreases |s|
  {
    if sep in s then
      FirstCut(s, sep);
      [Before(s, sep)] + Split(s[|Before(s, sep)| + 1..], sep)
    else
      [s]
  }

  lemma {:induction false} FirstCut(s: string, c: char)
    requires c in s
    ensures |Before(s, c)| < |s| && s[|Before(s, c)|] == c
  {
    if s[0] != c {
      FirstCut(s[1..], c);
    }
  }

  lemma {:induction false} BeforeJoined(a: string, c: char, b: string)
    requires c !in a
    ensures Before(a + [c] + b, c) == a
  {
    if a != "" {
      BeforeJoined(a[1..], c, b);
      assert (a + [c] + b)[1..] == a[1..] + [c] + b;
    }
  }

  lemma CutJoined(a: string, c: char, b: string)
    requires c !in a
    ensures c in a + [c] + b && Before(a + [c] + b, c) == a
    ensures (a + [c] + b)[|a| + 1..] == b
  {
    assert (a + [c] + b)[|a|] == c;
    BeforeJoined(a, c, b);
  }

  lemma SplitCut(a: string, sep: char, b: string)
    requires sep !in a
    ensures Split(a + [sep] + b, sep) == [a] + Split(b, sep)
  {
    CutJoined(a, sep, b);
  }

  lemma {:induction false} SplitJoin(parts: seq<string>, sep: char)
    requires |parts| > 0 && forall i :: 0 <= i < |parts| ==> sep !in parts[i]
    ensures Split(Join(parts, sep), sep) == parts
  {
    if |parts| > 1 {
      SplitCut(parts[0], sep, Join(parts[1..], sep));
      SplitJoin(parts[1..], sep);
      assert parts == [parts[0]] + parts[1..];
    }
  }

  function ReadField(f: string): Option<(bytes, bytes)> {
    if '=' !in f then
      None
    else
      FirstCut(f, '=');
      var k := Before(f, '=');
      var key, value := Unpercent(k), Unpercent(f[|k| + 1..]);
      if key.None? || value.None? then None else Some((key.value, value.value))
  }

  function ReadFields(fs: seq<string>): Option<Pairs> {
    if fs == [] then
      Some([])
    else
      var first, rest := ReadField(fs[0]), ReadFields(fs[1..]);
      if first.None? || rest.None? then None else Some([first.value] + rest.value)
  }

  function ReadQuery(s: string): Option<Pairs> {
    ReadFields(Split(s, '&'))
  }

  lemma ReadFieldAt(k: string, v: string)
    requires '=' !in k && Unpercent(k).Some? && Unpercent(v).Some?
    ensures ReadField(k + "=" + v) == Some((Unpercent(k).value, Unpercent(v).value))
  {
    CutJoined(k, '=', v);
  }

  lemma FieldSafe(p: (bytes, bytes))
    ensures '&' !in Field(p) && ReadField(Field(p)) == Some(p)
  {
    PercentAlphabet(p.0);
    PercentAlphabet(p.1);
    PercentRoundTrip(p.0);
    PercentRoundTrip(p.1);
    ReadFieldAt(Percent(p.0), Percent(p.1));
  }

  lemma FieldsCons(p: (bytes, bytes), ps: Pairs)
    ensures Fields([p] + ps) == [Field(p)] + Fields(ps)
  {
  }

  lemma ReadCons(f: string, fs: seq<string>)
    requires ReadField(f).Some? && ReadFields(fs).Some?
    ensures ReadFields([f] + fs) == Some([ReadField(f).value] + ReadFields(fs).value)
  {
    assert ([f] + fs)[1..] == fs;
  }

  lemma {:induction false} FieldsRead(ps: Pairs)
    ensures ReadFields(Fields(ps)) == Some(ps)
  {
    if ps != [] {
      FieldSafe(ps[0]);
      FieldsRead(ps[1..]);
      FieldsCons(ps[0], ps[1..]);
      ReadCons(Field(ps[0]), Fields(ps[1..]));
      assert ps == [ps[0]] + ps[1..];
    }
  }

  /** Reading a query gives back exactly the ordered list of pairs it was built from. */
  lemma QueryRoundTrip(ps: Pairs)
    requires |ps| > 0
    ensures ReadQuery(Query(ps)) == Some(ps)
  {
    forall i | 0 <= i < |ps|
      ensures '&' !in Fields(ps)[i]
    {
      FieldSafe(ps[i]);
    }
    SplitJoin(Fields(ps), '&');
    FieldsRead(ps);
  }

  lemma {:induction false} JoinSnoc(parts: seq<string>, last: string, sep: char)
    requires |parts| > 0
    ensures Join(parts + [last], sep) == Join(parts, sep) + ([sep] + last)
  {
    if |parts| == 1 {
      assert (parts + [last])[1..] == [last];
      Assoc(parts[0], [sep], last);
    } else {
      JoinSnoc(parts[1..], last, sep);
      assert (parts + [last])[1..] == parts[1..] + [last];
      Assoc(parts[0] + [sep], Join(parts[1..], sep), [sep] + last);
    }
  }

  /** How the query grows by one pair. */
  lemma QuerySnoc(ps: Pairs, p: (bytes, bytes))
    requires |ps| > 0
    ensures Query(ps + [p]) == Query(ps) + ("&" + Field(p))
  {
    assert Fields(ps + [p]) == Fields(ps) + [Field(p)];
    JoinSnoc(Fields(ps), Field(p), '&');
  }
}
