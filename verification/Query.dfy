/** The query-string lookup of HttpServer, on byte strings: characters are codes below 256. */
module Query {
  import opened Options

  // A hexadecimal digit, in either case.
  predicate IsHex(c: char) {
    c in "0123456789abcdefABCDEF"
  }

  // c is the digit of value n; section 2.1 of RFC 3986 makes digits of either case equivalent.
  predicate HexDigit(n: nat, c: char)
    requires n < 16
  {
    c == "0123456789ABCDEF"[n] || c == "0123456789abcdef"[n]
  }

  function CharToNum(c: char): (num: int)
    ensures -1 <= num < 16
  {
    if '0' <= c <= '9' then c as int - '0' as int
    else if 'a' <= c <= 'f' then c as int - 'a' as int + 10
    else if 'A' <= c <= 'F' then c as int - 'A' as int + 10
    else -1
  }

  /** char_to_num: the value of a hexadecimal digit, and -1 for every other character. */
  lemma CharToNumIsDigit(c: char)
    ensures CharToNum(c) != -1 <==> IsHex(c)
    ensures CharToNum(c) >= 0 ==> HexDigit(CharToNum(c), c)
  {
  }

  // ----- decoding -----

  predicate Escape(url: string) {
    |url| > 2 && url[0] == '%' && CharToNum(url[1]) != -1 && CharToNum(url[2]) != -1
  }

  function Decoded(url: string): string {
    if url == "" then ""
    else if Escape(url) then [(CharToNum(url[1]) * 16 + CharToNum(url[2])) as char] + Decoded(url[3..])
    else [if url[0] == '+' then ' ' else url[0]] + Decoded(url[1..])
  }

  lemma DecodedStep(url: string, i: nat)
    requires i < |url|
    ensures Escape(url[i..]) <==>
            i + 2 < |url| && url[i] == '%' && CharToNum(url[i + 1]) != -1 && CharToNum(url[i + 2]) != -1
    ensures Decoded(url[i..]) ==
            if Escape(url[i..]) then
              [(CharToNum(url[i + 1]) * 16 + CharToNum(url[i + 2])) as char] + Decoded(url[i + 3..])
            else [if url[i] == '+' then ' ' else url[i]] + Decoded(url[i + 1..])
  {
    hide CharToNum;
    assert url[i..][1..] == url[i + 1..];
    assert i + 2 < |url| ==> url[i..][3..] == url[i + 3..];
  }

  /** The decoding loop. */
  method Decode(url: string) returns (decoded: string)
    ensures decoded == Decoded(url)
  {
    hide Decoded, Escape, CharToNum;
    decoded := "";
    var i := 0;
    assert url[0..] == url;
    while i < |url|
      invariant 0 <= i <= |url|
      invariant decoded + Decoded(url[i..]) == Decoded(url)
    {
      DecodedStep(url, i);
      if url[i] == '%' && i + 2 < |url| {
        var high, low := CharToNum(url[i + 1]), CharToNum(url[i + 2]);
        if high != -1 && low != -1 {
          decoded := decoded + [(high * 16 + low) as char];
          i := i + 3;
          continue;
        }
      }
      decoded := decoded + [if url[i] == '+' then ' ' else url[i]];
      i := i + 1;
    }
    assert url[i..] == "";
    DecodedEmpty();
  }

  lemma DecodedEmpty()
    ensures Decoded("") == ""
  {
  }

  // ----- what decoding does, by position -----

  // A '%' followed by two hexadecimal digits stands at i.
  predicate EscapeAt(url: string, i: nat) {
    i + 2 < |url| && url[i] == '%' && IsHex(url[i + 1]) && IsHex(url[i + 2])
  }

  // The character c stands for what is at i: the byte of an escape, a space for '+', and any other character, a '%'
  // that starts no escape included, for itself.
  predicate StandsFor(url: string, i: nat, c: char) {
    i < |url| &&
    if EscapeAt(url, i) then
      c as int < 256 && HexDigit(c as int / 16, url[i + 1]) && HexDigit(c as int % 16, url[i + 2])
    else c == if url[i] == '+' then ' ' else url[i]
  }

  // Output character k comes from input position at[k]; together they cover the input.
  ghost predicate Covers(url: string, start: nat, out: string, at: seq<nat>) {
    && |at| == |out| + 1 && at[0] == start && at[|out|] == |url|
    && forall k :: 0 <= k < |out| ==>
         StandsFor(url, at[k], out[k]) && at[k + 1] == at[k] + if EscapeAt(url, at[k]) then 3 else 1
  }

  lemma EscapeIffAt(url: string, i: nat)
    requires i < |url|
    ensures Escape(url[i..]) <==> EscapeAt(url, i)
  {
    hide CharToNum, IsHex, HexDigit;
    if i + 2 < |url| {
      assert url[i..][1] == url[i + 1] && url[i..][2] == url[i + 2];
      CharToNumIsDigit(url[i + 1]);
      CharToNumIsDigit(url[i + 2]);
    }
  }

  lemma ByteOfDigits(url: string, i: nat)
    requires EscapeAt(url, i)
    ensures StandsFor(url, i, (CharToNum(url[i + 1]) * 16 + CharToNum(url[i + 2])) as char)
  {
    hide HexDigit, IsHex, CharToNum;
    CharToNumIsDigit(url[i + 1]);
    CharToNumIsDigit(url[i + 2]);
    var h, l := CharToNum(url[i + 1]), CharToNum(url[i + 2]);
    assert (h * 16 + l) / 16 == h && (h * 16 + l) % 16 == l;
  }

  lemma CoversMore(url: string, i: nat, c: char, out: string, at: seq<nat>)
    requires StandsFor(url, i, c) && Covers(url, i + if EscapeAt(url, i) then 3 else 1, out, at)
    ensures Covers(url, i, [c] + out, [i] + at)
  {
    hide StandsFor, EscapeAt;
    var out', at' := [c] + out, [i] + at;
    forall k | 0 <= k < |out'|
      ensures StandsFor(url, at'[k], out'[k]) && at'[k + 1] == at'[k] + if EscapeAt(url, at'[k]) then 3 else 1
    {
      if k > 0 {
        assert out'[k] == out[k - 1] && at'[k] == at[k - 1] && at'[k + 1] == at[k];
      }
    }
  }

  /** Decoding of any text whatever, valid or not, by position in the input. */
  lemma {:induction false} DecodedByPosition(url: string, i: nat) returns (at: seq<nat>)
    requires i <= |url|
    ensures Covers(url, i, Decoded(url[i..]), at)
    decreases |url| - i
  {
    if i == |url| {
      DecodedEmpty();
      at := [i];
    } else {
      hide Decoded, Escape, CharToNum, Covers, StandsFor, IsHex;
      DecodedStep(url, i);
      EscapeIffAt(url, i);
      if EscapeAt(url, i) {
        at := DecodedByPosition(url, i + 3);
        ByteOfDigits(url, i);
        CoversMore(url, i, (CharToNum(url[i + 1]) * 16 + CharToNum(url[i + 2])) as char, Decoded(url[i + 3..]), at);
      } else {
        at := DecodedByPosition(url, i + 1);
        var c := if url[i] == '+' then ' ' else url[i];
        PlainStands(url, i);
        CoversMore(url, i, c, Decoded(url[i + 1..]), at);
      }
      at := [i] + at;
    }
  }

  lemma PlainStands(url: string, i: nat)
    requires i < |url| && !EscapeAt(url, i)
    ensures StandsFor(url, i, if url[i] == '+' then ' ' else url[i])
  {
  }

  /** Text without '%' escapes and '+' is left alone, as in a path that merely contains a '%'. */
  lemma {:induction false} PlainTextKept(url: string, i: nat)
    requires i <= |url| && forall k :: i <= k < |url| ==> url[k] != '+' && !EscapeAt(url, k)
    ensures Decoded(url[i..]) == url[i..]
    decreases |url| - i
  {
    if i < |url| {
      hide Decoded, Escape, CharToNum, EscapeAt;
      DecodedStep(url, i);
      EscapeIffAt(url, i);
      PlainTextKept(url, i + 1);
      assert url[i..] == [url[i]] + url[i + 1..];
    } else {
      DecodedEmpty();
    }
  }

  lemma PercentKept()
    ensures Decoded("/data/50%off") == "/data/50%off"
  {
    var url := "/data/50%off";
    forall k | 0 <= k < |url| ensures url[k] != '+' && !EscapeAt(url, k) {
      assert url[k] == '%' ==> k == 8;
      assert url[9] == 'o';
    }
    PlainTextKept(url, 0);
    assert url[0..] == url;
  }

  // ----- searching -----

  predicate Match(s: string, pattern: string, at: int) {
    0 <= at <= at + |pattern| <= |s| && s[at..at + |pattern|] == pattern
  }

  // string::find(pattern, from); -1 stands for npos.
  function Find(s: string, pattern: string, from: nat): (r: int)
    ensures r == -1 || (from <= r && Match(s, pattern, r))
    ensures forall q :: from <= q && (r == -1 || q < r) ==> !Match(s, pattern, q)
    decreases |s| - from
  {
    if from > |s| then -1
    else if Match(s, pattern, from) then from
    else Find(s, pattern, from + 1)
  }

  // The text before the first '&'.
  function UpToAmpersand(s: string): (t: string)
    ensures t <= s && '&' !in t
    ensures |t| < |s| ==> s[|t|] == '&'
  {
    if s == "" || s[0] == '&' then "" else [s[0]] + UpToAmpersand(s[1..])
  }

  function QueryValue(queries: string, key: string): Option<string> {
    var start := Find(queries, key + "=", 0);
    if start == -1 then None
    else
      var url := UpToAmpersand(queries[start + |key| + 1..]);
      if url == "" then None else Some(Decoded(url))
  }

  lemma {:induction false} ValueOfField(e: string, tail: string)
    requires '&' !in e && (tail == "" || tail[0] == '&')
    ensures UpToAmpersand(e + tail) == e
  {
    if e != "" {
      ValueOfField(e[1..], tail);
      assert (e + tail)[1..] == e[1..] + tail;
    } else {
      assert e + tail == tail;
    }
  }

  lemma MatchOne(s: string, q: int)
    ensures Match(s, "&", q) <==> 0 <= q < |s| && s[q] == '&'
  {
    if 0 <= q < |s| {
      assert s[q..q + 1] == [s[q]];
    }
  }

  lemma FindAmpersand(s: string, from: nat)
    requires from <= |s|
    ensures
      var r := Find(s, "&", from);
      UpToAmpersand(s[from..]) == if r == -1 then s[from..] else s[from..r]
  {
    hide UpToAmpersand;
    forall q ensures Match(s, "&", q) <==> 0 <= q < |s| && s[q] == '&' {
      MatchOne(s, q);
    }
    var r := Find(s, "&", from);
    var end := if r == -1 then |s| else r;
    assert from <= end <= |s|;
    forall i | 0 <= i < end - from ensures s[from..end][i] != '&' {
      assert !Match(s, "&", from + i);
    }
    assert s[from..] == s[from..end] + s[end..];
    ValueOfField(s[from..end], s[end..]);
  }

  /** get_query_value: `None` for a result of false, which also covers an empty value. */
  method GetQueryValue(queries: string, key: string) returns (value: Option<string>)
    ensures value == QueryValue(queries, key)
  {
    var pattern := key + "=";
    var keyStart := Find(queries, pattern, 0);
    if keyStart == -1 {
      return None;
    }
    var keyEnd := keyStart + |pattern|;
    var valEnd := Find(queries, "&", keyEnd);
    FindAmpersand(queries, keyEnd);
    var url := if valEnd == -1 then queries[keyEnd..] else queries[keyEnd..valEnd];
    if url == "" {
      return None;
    }
    var decoded := Decode(url);
    value := Some(decoded);
  }

  // ----- percent-encoding, section 2.1 of RFC 3986 -----

  // The unreserved characters of section 2.3, which stand for themselves.
  predicate Unreserved(c: char) {
    'a' <= c <= 'z' || 'A' <= c <= 'Z' || '0' <= c <= '9' || c in "-._~"
  }

  predicate Triplet(e: string, c: char) {
    && |e| >= 3 && e[0] == '%' && c as int < 256
    && HexDigit(c as int / 16, e[1]) && HexDigit(c as int % 16, e[2])
  }

  // e is one of the percent-encodings of the bytes v.
  ghost predicate Encodes(e: string, v: string) {
    if v == "" then e == ""
    else
      || (e != "" && Unreserved(v[0]) && e[0] == v[0] && Encodes(e[1..], v[1..]))
      || (Triplet(e, v[0]) && Encodes(e[3..], v[1..]))
  }

  function EncodeByte(c: char): string {
    if Unreserved(c) || c as int >= 256 then [c]
    else ['%', "0123456789ABCDEF"[c as int / 16], "0123456789ABCDEF"[c as int % 16]]
  }

  // The usual producer: encode whatever is not unreserved.
  function Encode(v: string): string {
    if v == "" then "" else EncodeByte(v[0]) + Encode(v[1..])
  }

  lemma {:induction false} EncodeEncodes(v: string)
    requires forall i :: 0 <= i < |v| ==> v[i] as int < 256
    ensures Encodes(Encode(v), v)
  {
    if v != "" {
      EncodeEncodes(v[1..]);
      var e := Encode(v);
      assert e[|EncodeByte(v[0])|..] == Encode(v[1..]);
    }
  }

  lemma HexDigitValue(n: nat, c: char)
    requires n < 16 && HexDigit(n, c)
    ensures CharToNum(c) == n && c != '&' && c != '='
  {
  }

  lemma PlainStep(e: string)
    requires e != "" && Unreserved(e[0])
    ensures Decoded(e) == [e[0]] + Decoded(e[1..])
    ensures '&' !in e[1..] && '=' !in e[1..] ==> '&' !in e && '=' !in e
  {
    assert e == [e[0]] + e[1..];
  }

  lemma TripletDigits(e: string, c: char)
    requires Triplet(e, c)
    ensures |e| >= 3 && Escape(e) && (CharToNum(e[1]) * 16 + CharToNum(e[2])) as char == c
    ensures e[0] != '&' && e[0] != '=' && e[1] != '&' && e[1] != '=' && e[2] != '&' && e[2] != '='
  {
    hide HexDigit, CharToNum;
    var b := c as int;
    assert b == b / 16 * 16 + b % 16;
    HexDigitValue(b / 16, e[1]);
    HexDigitValue(b % 16, e[2]);
  }

  lemma NotInFront(e: string, c: char)
    requires |e| >= 3 && e[0] != c && e[1] != c && e[2] != c && c !in e[3..]
    ensures c !in e
  {
    forall i | 0 <= i < |e| ensures e[i] != c {
      assert i >= 3 ==> e[i] == e[3..][i - 3];
    }
  }

  lemma TripletStep(e: string, c: char)
    requires Triplet(e, c)
    ensures |e| >= 3 && Decoded(e) == [c] + Decoded(e[3..])
  {
    hide Triplet, CharToNum, Escape;
    TripletDigits(e, c);
  }

  /** Decoding undoes every percent-encoding, and an encoded value holds no delimiter. */
  lemma {:induction false} DecodeEncoded(e: string, v: string)
    requires Encodes(e, v)
    ensures Decoded(e) == v && '&' !in e && '=' !in e && (e == "" <==> v == "")
    decreases v
  {
    hide Decoded, Triplet, Unreserved;
    if v == "" {
      DecodedEmpty();
    } else if e != "" && Unreserved(v[0]) && e[0] == v[0] && Encodes(e[1..], v[1..]) {
      PlainStep(e);
      DecodeEncoded(e[1..], v[1..]);
    } else {
      TripletStep(e, v[0]);
      DecodeEncoded(e[3..], v[1..]);
      TripletDigits(e, v[0]);
      NotInFront(e, '&');
      NotInFront(e, '=');
    }
  }

  // ----- whole queries -----

  datatype Field = Field(key: string, encoded: string, value: string)

  predicate Plain(key: string) {
    '&' !in key && '=' !in key
  }

  ghost predicate WellFormed(fields: seq<Field>) {
    forall i :: 0 <= i < |fields| ==> Plain(fields[i].key) && Encodes(fields[i].encoded, fields[i].value)
  }

  function Text(f: Field): string {
    f.key + "=" + f.encoded
  }

  function Join(fields: seq<Field>): string {
    if fields == [] then ""
    else if |fields| == 1 then Text(fields[0])
    else Text(fields[0]) + "&" + Join(fields[1..])
  }

  predicate Suffix(key: string, s: string) {
    |key| <= |s| && s[|s| - |key|..] == key
  }

  // The value of the first field whose key ends with the requested one.
  function FirstEndingWith(fields: seq<Field>, key: string): Option<string> {
    if fields == [] then None
    else if Suffix(key, fields[0].key) then
      if fields[0].value == "" then None else Some(fields[0].value)
    else FirstEndingWith(fields[1..], key)
  }

  lemma MatchEndsWithEquals(s: string, key: string, q: int)
    requires Match(s, key + "=", q)
    ensures s[q + |key|] == '=' && forall i :: q <= i < q + |key| ==> s[i] == key[i - q]
  {
    var m := s[q..q + |key| + 1];
    assert m[|key|] == s[q + |key|];
    assert forall i :: q <= i < q + |key| ==> s[i] == m[i - q];
  }

  // A match in a text starting with `key0=` is at the key's end, or beyond the key.
  lemma MatchInField(key0: string, tail: string, key: string, q: int)
    requires Plain(key0) && Plain(key)
    requires Match(key0 + "=" + tail, key + "=", q)
    ensures q >= |key0| - |key|
    ensures q + |key| == |key0| ==> Suffix(key, key0)
  {
    var s := key0 + "=" + tail;
    MatchEndsWithEquals(s, key, q);
    assert forall i :: 0 <= i < |key0| ==> s[i] == key0[i] && s[i] != '=';
    if q + |key| == |key0| {
      assert key0[q..] == key;
    }
  }

  lemma SuffixMatches(key0: string, tail: string, key: string)
    requires Suffix(key, key0)
    ensures Match(key0 + "=" + tail, key + "=", |key0| - |key|)
  {
    var s := key0 + "=" + tail;
    var q := |key0| - |key|;
    assert s[q..|key0| + 1] == key0[q..] + "=";
  }

  lemma FoundHere(f: Field, tail: string, key: string)
    requires Plain(f.key) && Encodes(f.encoded, f.value) && Plain(key)
    requires (tail == "" || tail[0] == '&') && Suffix(key, f.key)
    ensures QueryValue(Text(f) + tail, key) == if f.value == "" then None else Some(f.value)
  {
    var s := Text(f) + tail;
    assert s == f.key + "=" + (f.encoded + tail);
    SuffixMatches(f.key, f.encoded + tail, key);
    var start := Find(s, key + "=", 0);
    MatchInField(f.key, f.encoded + tail, key, start);
    assert start == |f.key| - |key|;
    assert s[start + |key| + 1..] == f.encoded + tail;
    DecodeEncoded(f.encoded, f.value);
    ValueOfField(f.encoded, tail);
  }

  // No match of a foreign key starts inside the field or at its '&'.
  lemma NotFoundHere(f: Field, tail: string, key: string, q: int)
    requires Plain(f.key) && Encodes(f.encoded, f.value) && Plain(key) && !Suffix(key, f.key)
    requires (tail == "" || tail[0] == '&') && Match(Text(f) + tail, key + "=", q)
    ensures q > |Text(f)|
  {
    hide Encodes, Suffix;
    var s := Text(f) + tail;
    var n := |Text(f)|;
    assert s == f.key + "=" + (f.encoded + tail);
    DecodeEncoded(f.encoded, f.value);
    MatchInField(f.key, f.encoded + tail, key, q);
    MatchEndsWithEquals(s, key, q);
    assert forall i :: |f.key| < i < n ==> s[i] == f.encoded[i - |f.key| - 1] && s[i] != '=';
    assert n < |s| ==> s[n] == '&';
  }

  lemma OnlyLater(f: Field, rest: string, key: string, q: int)
    requires Plain(f.key) && Encodes(f.encoded, f.value) && Plain(key) && !Suffix(key, f.key)
    ensures
      var s, pattern, n := Text(f) + "&" + rest, key + "=", |Text(f)| + 1;
      Match(s, pattern, q) <==> q >= n && Match(rest, pattern, q - n)
  {
    hide Encodes, Suffix, Plain;
    var s, pattern, n := Text(f) + "&" + rest, key + "=", |Text(f)| + 1;
    assert s == Text(f) + ("&" + rest);
    if Match(s, pattern, q) {
      NotFoundHere(f, "&" + rest, key, q);
    }
    if q >= n && q + |pattern| <= |s| {
      assert s[n..] == rest;
      assert s[q..q + |pattern|] == rest[q - n..q - n + |pattern|];
    }
  }

  lemma SkipField(f: Field, rest: string, key: string)
    requires Plain(f.key) && Encodes(f.encoded, f.value) && Plain(key) && !Suffix(key, f.key)
    ensures QueryValue(Text(f) + "&" + rest, key) == QueryValue(rest, key)
  {
    hide Encodes, Suffix, Plain, Match, Text, Decoded, UpToAmpersand;
    var s, pattern, n := Text(f) + "&" + rest, key + "=", |Text(f)| + 1;
    forall q ensures Match(s, pattern, q) <==> q >= n && Match(rest, pattern, q - n) {
      OnlyLater(f, rest, key, q);
    }
    ShiftedFind(s, rest, pattern, n);
    var there := Find(rest, pattern, 0);
    if there != -1 {
      MatchInside(rest, pattern, there);
      assert s[there + n + |pattern|..] == rest[there + |pattern|..];
    }
  }

  lemma MatchInside(s: string, pattern: string, q: int)
    requires Match(s, pattern, q)
    ensures 0 <= q <= q + |pattern| <= |s|
  {
  }

  lemma ShiftedFind(s: string, rest: string, pattern: string, n: nat)
    requires forall q :: Match(s, pattern, q) <==> q >= n && Match(rest, pattern, q - n)
    ensures
      var there := Find(rest, pattern, 0);
      Find(s, pattern, 0) == if there == -1 then -1 else there + n
  {
    var here, there := Find(s, pattern, 0), Find(rest, pattern, 0);
    if there != -1 {
      assert Match(s, pattern, there + n);
    }
    if here != -1 {
      assert Match(rest, pattern, here - n);
    }
  }

  lemma SkipLast(f: Field, key: string)
    requires Plain(f.key) && Encodes(f.encoded, f.value) && Plain(key) && !Suffix(key, f.key)
    ensures QueryValue(Text(f), key) == None
  {
    assert Text(f) + "" == Text(f);
    var start := Find(Text(f), key + "=", 0);
    if start != -1 {
      NotFoundHere(f, "", key, start);
    }
  }

  /**
   What the lookup returns, for every query of percent-encoded fields and every key without delimiters: the
   value of the first field whose key ends with the requested one; an empty value counts as missing.
   */
  lemma {:induction false} LooksUpBySuffix(fields: seq<Field>, key: string)
    requires WellFormed(fields) && Plain(key)
    ensures QueryValue(Join(fields), key) == FirstEndingWith(fields, key)
  {
    if fields == [] {
      return;
    }
    var f, rest := fields[0], fields[1..];
    assert Plain(f.key) && Encodes(f.encoded, f.value);
    if Suffix(key, f.key) {
      var tail := if |fields| == 1 then "" else "&" + Join(rest);
      assert Join(fields) == Text(f) + tail;
      FoundHere(f, tail, key);
    } else if |fields| == 1 {
      SkipLast(f, key);
      assert FirstEndingWith([], key) == None;
    } else {
      SkipField(f, Join(rest), key);
      LooksUpBySuffix(rest, key);
    }
  }

  /** Query round trip: when no other key ends with it, each key gives back the original value. */
  lemma {:induction false} QueryRoundTrip(fields: seq<Field>, j: nat)
    requires WellFormed(fields) && j < |fields| && fields[j].value != ""
    requires forall i :: 0 <= i < j ==> !Suffix(fields[j].key, fields[i].key)
    ensures QueryValue(Join(fields), fields[j].key) == Some(fields[j].value)
  {
    assert Plain(fields[j].key);
    LooksUpBySuffix(fields, fields[j].key);
    FirstIsOwn(fields, j);
  }

  lemma {:induction false} FirstIsOwn(fields: seq<Field>, j: nat)
    requires j < |fields| && fields[j].value != ""
    requires forall i :: 0 <= i < j ==> !Suffix(fields[j].key, fields[i].key)
    ensures FirstEndingWith(fields, fields[j].key) == Some(fields[j].value)
    decreases j
  {
    if j > 0 {
      assert !Suffix(fields[j].key, fields[0].key);
      FirstIsOwn(fields[1..], j - 1);
    }
  }

  /** Whatever the values, the round trip holds iff no earlier key ends with the requested one. */
  lemma RoundTripIffNoEarlierSuffix(keys: seq<string>, j: nat)
    requires j < |keys| && forall i :: 0 <= i < |keys| ==> Plain(keys[i])
    ensures (forall i :: 0 <= i < j ==> !Suffix(keys[j], keys[i]))
        <==> (forall fields: seq<Field> ::
                WellFormed(fields) && Keys(fields) == keys && fields[j].value != "" ==>
                  QueryValue(Join(fields), keys[j]) == Some(fields[j].value))
  {
    hide Join, QueryValue, Encodes, Plain;
    if forall i :: 0 <= i < j ==> !Suffix(keys[j], keys[i]) {
      forall fields: seq<Field> | WellFormed(fields) && Keys(fields) == keys && fields[j].value != ""
        ensures QueryValue(Join(fields), keys[j]) == Some(fields[j].value)
      {
        assert forall i :: 0 <= i < |fields| ==> fields[i].key == Keys(fields)[i];
        QueryRoundTrip(fields, j);
      }
    } else {
      var fields := Shadowing(keys, j);
      LooksUpBySuffix(fields, keys[j]);
      FirstIsOther(fields, j);
    }
  }

  lemma Shadowing(keys: seq<string>, j: nat) returns (fields: seq<Field>)
    requires j < |keys| && forall i :: 0 <= i < |keys| ==> Plain(keys[i])
    ensures WellFormed(fields) && Keys(fields) == keys && fields[j].value == "y"
    ensures forall i :: 0 <= i < |keys| ==> fields[i].key == keys[i]
    ensures forall i :: 0 <= i < j ==> fields[i].value == "x"
  {
    fields := seq(|keys|, i requires 0 <= i < |keys| =>
      if i == j then Field(keys[i], "y", "y") else Field(keys[i], "x", "x"));
    assert Encodes("", "") && "y"[1..] == "" && "x"[1..] == "";
    assert Encodes("y", "y") && Encodes("x", "x");
  }

  function Keys(fields: seq<Field>): seq<string> {
    seq(|fields|, i requires 0 <= i < |fields| => fields[i].key)
  }

  lemma {:induction false} FirstIsOther(fields: seq<Field>, j: nat)
    requires j < |fields| && exists i :: 0 <= i < j && Suffix(fields[j].key, fields[i].key)
    requires forall i :: 0 <= i < j ==> fields[i].value == "x"
    ensures FirstEndingWith(fields, fields[j].key) == Some("x")
    decreases j
  {
    var i :| 0 <= i < j && Suffix(fields[j].key, fields[i].key);
    if !Suffix(fields[j].key, fields[0].key) {
      assert fields[1..][i - 1] == fields[i];
      FirstIsOther(fields[1..], j - 1);
    }
  }

  /** A key that another one ends with is shadowed by it. */
  lemma ShadowedKey()
    ensures QueryValue("scan_id=5&id=7", "id") == Some("5")
  {
    var fields := [Field("scan_id", "5", "5"), Field("id", "7", "7")];
    assert "5"[1..] == "" && "7"[1..] == "" && Encodes("", "");
    assert Encodes("5", "5") && Encodes("7", "7");
    assert Join(fields[1..]) == "id=7";
    assert Join(fields) == "scan_id=5&id=7";
    assert Suffix("id", "scan_id");
    LooksUpBySuffix(fields, "id");
  }
}
