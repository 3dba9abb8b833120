/**
  * The PHP string built-ins the client relies on: truthiness of a nullable
  * string, `rtrim`/`ltrim` with the character list `/\`, `implode`/`explode`
  * with a one-byte separator, and `urlencode` together with its inverse
  * `urldecode`.
  */
module PhpStrings {
  import opened Wrappers

  /** A PHP string is a sequence of bytes; each byte is a char below 256. */
  type Byte = c: char | c as int < 256
  type Bytes = seq<Byte>

  /** PHP truthiness of a nullable string: `null`, `""` and `"0"` are false. */
  predicate Truthy(v: Option<Bytes>) {
    v.Some? && v.value != "" && v.value != "0"
  }

  /** The characters of the list `'/\\'` that the client trims. */
  predicate IsSlash(c: Byte) {
    c == '/' || c == '\\'
  }

  /** `rtrim($s, '/\\')`: the longest prefix of `s` that does not end in a slash. */
  function TrimTrailingSlashes(s: Bytes): (r: Bytes)
    ensures r <= s
    ensures r == [] || !IsSlash(r[|r| - 1])
    ensures forall i :: |r| <= i < |s| ==> IsSlash(s[i])
  {
    if s != [] && IsSlash(s[|s| - 1]) then TrimTrailingSlashes(s[..|s| - 1]) else s
  }

  /** `ltrim($s, '/\\')`: the longest suffix of `s` that does not start with a slash. */
  function TrimLeadingSlashes(s: Bytes): (r: Bytes)
    ensures |r| <= |s| && r == s[|s| - |r|..]
    ensures r == [] || !IsSlash(r[0])
    ensures forall i :: 0 <= i < |s| - |r| ==> IsSlash(s[i])
  {
    if s != [] && IsSlash(s[0]) then TrimLeadingSlashes(s[1..]) else s
  }

  /** `implode(sep, parts)` */
  function Join(parts: seq<Bytes>, sep: Byte): Bytes {
    if parts == [] then []
    else if |parts| == 1 then parts[0]
    else parts[0] + [sep] + Join(parts[1..], sep)
  }

  /** `explode(sep, s)`: never empty, and no piece holds the separator. */
  function Split(s: Bytes, sep: Byte): (r: seq<Bytes>)
    ensures |r| >= 1
    ensures forall i :: 0 <= i < |r| ==> sep !in r[i]
  {
    if s == [] then [[]]
    else
      var rest := Split(s[1..], sep);
      if s[0] == sep then [[]] + rest else [[s[0]] + rest[0]] + rest[1..]
  }

  lemma {:induction false} SplitWithoutSeparator(a: Bytes, sep: Byte)
    requires sep !in a
    ensures Split(a, sep) == [a]
  {
    if a != [] {
      SplitWithoutSeparator(a[1..], sep);
      assert [a[0]] + a[1..] == a;
    }
  }

  lemma {:induction false} SplitAtFirstSeparator(a: Bytes, b: Bytes, sep: Byte)
    requires sep !in a
    ensures Split(a + [sep] + b, sep) == [a] + Split(b, sep)
  {
    if a == [] {
      assert a + [sep] + b == [sep] + b;
      assert ([sep] + b)[1..] == b;
    } else {
      SplitAtFirstSeparator(a[1..], b, sep);
      assert (a + [sep] + b)[1..] == a[1..] + [sep] + b;
      assert [a[0]] + a[1..] == a;
    }
  }

  /** `explode` undoes `implode` when no part holds the separator. */
  lemma {:induction false} SplitJoin(parts: seq<Bytes>, sep: Byte)
    requires |parts| >= 1
    requires forall i :: 0 <= i < |parts| ==> sep !in parts[i]
    ensures Split(Join(parts, sep), sep) == parts
  {
    if |parts| == 1 {
      SplitWithoutSeparator(parts[0], sep);
    } else {
      SplitJoin(parts[1..], sep);
      SplitAtFirstSeparator(parts[0], Join(parts[1..], sep), sep);
      assert [parts[0]] + parts[1..] == parts;
    }
  }

  /** The bytes `urlencode` leaves alone: `[A-Za-z0-9_.-]`. */
  predicate IsUnreserved(c: Byte) {
    ('A' <= c <= 'Z') || ('a' <= c <= 'z') || ('0' <= c <= '9') || c == '-' || c == '.' || c == '_'
  }

  /** Upper-case hexadecimal digit of `n`, as `urlencode` writes it. */
  function HexDigit(n: nat): (c: Byte)
    requires n < 16
  {
    if n < 10 then ('0' as int + n) as char else ('A' as int + n - 10) as char
  }

  predicate IsHexDigit(c: Byte) {
    ('0' <= c <= '9') || ('A' <= c <= 'F') || ('a' <= c <= 'f')
  }

  /** The value of a hexadecimal digit; `urldecode` accepts both cases. */
  function HexValue(c: Byte): (n: nat)
    requires IsHexDigit(c)
    ensures n < 16
  {
    if '0' <= c <= '9' then c as int - '0' as int
    else if 'A' <= c <= 'F' then c as int - 'A' as int + 10
    else c as int - 'a' as int + 10
  }

  /** One byte through `urlencode`. */
  function EncodeByte(c: Byte): Bytes {
    if IsUnreserved(c) then [c]
    else if c == ' ' then "+"
    else ['%', HexDigit(c as int / 16), HexDigit(c as int % 16)]
  }

  /** PHP `urlencode`: unreserved bytes kept, space to `+`, any other byte to `%XX`. */
  function UrlEncode(s: Bytes): Bytes {
    if s == [] then [] else EncodeByte(s[0]) + UrlEncode(s[1..])
  }

  /** Only bytes `urlencode` can write: `[A-Za-z0-9_.-]`, `+` and `%`. */
  predicate Encoded(s: Bytes) {
    forall i :: 0 <= i < |s| ==> IsUnreserved(s[i]) || s[i] == '+' || s[i] == '%'
  }

  lemma EncodedAppend(a: Bytes, b: Bytes)
    requires Encoded(a) && Encoded(b)
    ensures Encoded(a + b)
  {
    forall i | 0 <= i < |a + b|
      ensures IsUnreserved((a + b)[i]) || (a + b)[i] == '+' || (a + b)[i] == '%'
    {
      if i >= |a| {
        assert (a + b)[i] == b[i - |a|];
      }
    }
  }

  lemma EncodeByteAlphabet(c: Byte)
    ensures 1 <= |EncodeByte(c)| <= 3 && Encoded(EncodeByte(c))
  {
  }

  /**
    * `urlencode` writes only `[A-Za-z0-9_.-]`, `+` and `%`, so never a form
    * delimiter, and at most three bytes per input byte.
    */
  lemma {:induction false} UrlEncodeAlphabet(s: Bytes)
    ensures |s| <= |UrlEncode(s)| <= 3 * |s|
    ensures Encoded(UrlEncode(s))
    ensures '&' !in UrlEncode(s) && '=' !in UrlEncode(s) && '[' !in UrlEncode(s) && ']' !in UrlEncode(s)
  {
    if s != [] {
      UrlEncodeAlphabet(s[1..]);
      EncodeByteAlphabet(s[0]);
      EncodedAppend(EncodeByte(s[0]), UrlEncode(s[1..]));
    }
  }

  /** PHP `urldecode`: `+` to space, `%XX` (either case) to its byte, anything else kept. */
  function UrlDecode(s: Bytes): (r: Bytes)
    ensures |r| <= |s|
  {
    if s == [] then []
    else if s[0] == '+' then [' '] + UrlDecode(s[1..])
    else if s[0] == '%' && |s| >= 3 && IsHexDigit(s[1]) && IsHexDigit(s[2]) then
      [(HexValue(s[1]) * 16 + HexValue(s[2])) as char] + UrlDecode(s[3..])
    else [s[0]] + UrlDecode(s[1..])
  }

  lemma DecodeEncodedByte(c: Byte, rest: Bytes)
    ensures UrlDecode(EncodeByte(c) + rest) == [c] + UrlDecode(rest)
  {
    var e := EncodeByte(c) + rest;
    if IsUnreserved(c) {
      assert e[1..] == rest;
    } else if c == ' ' {
      assert e[1..] == rest;
    } else {
      assert e[3..] == rest;
    }
  }

  /** `urldecode` undoes `urlencode`. */
  lemma {:induction false} DecodeEncode(s: Bytes)
    ensures UrlDecode(UrlEncode(s)) == s
  {
    if s != [] {
      DecodeEncodedByte(s[0], UrlEncode(s[1..]));
      DecodeEncode(s[1..]);
      assert [s[0]] + s[1..] == s;
    }
  }

  /** Distinct strings have distinct encodings. */
  lemma EncodeInjective(a: Bytes, b: Bytes)
    ensures UrlEncode(a) == UrlEncode(b) ==> a == b
  {
    DecodeEncode(a);
    DecodeEncode(b);
  }
}
