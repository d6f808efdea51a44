/** The JSON text of a store row, and the substring pre-filter that listings run over it. */
module EntryJson {
  import opened Resource
  import opened Decimal

  // ---------- String literals (section 7 of RFC 8259, with the escapes Go's encoder chooses) ----------

  function HexDigit(n: int): char
    requires 0 <= n < 16
  {
    if n < 10 then ('0' as int + n) as char else ('a' as int + n - 10) as char
  }

  function HexValue(c: char): Option<int> {
    if '0' <= c <= '9' then Some(c as int - '0' as int)
    else if 'a' <= c <= 'f' then Some(c as int - 'a' as int + 10)
    else if 'A' <= c <= 'F' then Some(c as int - 'A' as int + 10)
    else None
  }

  function Hex4(n: int): string
    requires 0 <= n < 0x10000
  {
    [HexDigit(n / 4096), HexDigit(n / 256 % 16), HexDigit(n / 16 % 16), HexDigit(n % 16)]
  }

  function Escape(c: char): string {
    if c == '"' then "\\\""
    else if c == '\\' then "\\\\"
    else if c == '\U{8}' then "\\b"
    else if c == '\U{C}' then "\\f"
    else if c == '\n' then "\\n"
    else if c == '\r' then "\\r"
    else if c == '\t' then "\\t"
    else if c < ' ' || c == '<' || c == '>' || c == '&' || c == '\U{2028}' || c == '\U{2029}' then
      "\\u" + Hex4(c as int)
    else [c]
  }

  /** Text made of characters the encoder writes unchanged. */
  predicate Plain(s: string) {
    forall i :: 0 <= i < |s| ==> Escape(s[i]) == [s[i]]
  }

  /** The text from just inside a string literal on: the escaped value, its closing quote, then `rest`. */
  function Closed(value: string, rest: string): string {
    if value == [] then "\"" + rest else Escape(value[0]) + Closed(value[1..], rest)
  }

  function ReadEscape(text: string): (r: Option<(char, string)>)
    ensures r.Some? ==> |r.value.1| < |text|
  {
    if text == [] then None
    else if text[0] in "\"\\/" then Some((text[0], text[1..]))
    else if text[0] == 'b' then Some(('\U{8}', text[1..]))
    else if text[0] == 'f' then Some(('\U{C}', text[1..]))
    else if text[0] == 'n' then Some(('\n', text[1..]))
    else if text[0] == 'r' then Some(('\r', text[1..]))
    else if text[0] == 't' then Some(('\t', text[1..]))
    else if text[0] == 'u' && |text| >= 5 then
      var a :- HexValue(text[1]);
      var b :- HexValue(text[2]);
      var c :- HexValue(text[3]);
      var d :- HexValue(text[4]);
      var code := 4096 * a + 256 * b + 16 * c + d;
      if code < 0xD800 || 0xE000 <= code < 0x10000 then Some((code as char, text[5..])) else None
    else None
  }

  /** Reads a string literal from just inside its opening quote: its value and what follows it. */
  function ReadString(text: string): Option<(string, string)>
    decreases |text|
  {
    if text == [] || text[0] < ' ' then None
    else if text[0] == '"' then Some(("", text[1..]))
    else if text[0] == '\\' then
      var first :- ReadEscape(text[1..]);
      var tail :- ReadString(first.1);
      Some(([first.0] + tail.0, tail.1))
    else
      var tail :- ReadString(text[1..]);
      Some(([text[0]] + tail.0, tail.1))
  }

  lemma HexRoundTrip(n: int)
    requires 0 <= n < 0x10000
    ensures forall i :: 0 <= i < 4 ==> HexValue(Hex4(n)[i]).Some?
    ensures 4096 * HexValue(Hex4(n)[0]).value + 256 * HexValue(Hex4(n)[1]).value
            + 16 * HexValue(Hex4(n)[2]).value + HexValue(Hex4(n)[3]).value == n
  {
    assert n == 16 * (n / 16) + n % 16;
    assert n / 16 == 16 * (n / 256) + n / 16 % 16;
    assert n / 256 == 16 * (n / 4096) + n / 256 % 16;
  }

  lemma ReadEscaped(c: char, rest: string)
    requires Escape(c) != [c]
    ensures |Escape(c)| >= 2 && Escape(c)[0] == '\\'
    ensures ReadEscape(Escape(c)[1..] + rest) == Some((c, rest))
  {
    var text := Escape(c)[1..] + rest;
    if |Escape(c)| == 6 {
      HexRoundTrip(c as int);
      assert text[0] == 'u' && text[1..5] == Hex4(c as int) && text[5..] == rest;
      assert text[1] == Hex4(c as int)[0] && text[2] == Hex4(c as int)[1];
      assert text[3] == Hex4(c as int)[2] && text[4] == Hex4(c as int)[3];
    } else {
      assert text[1..] == rest;
    }
  }

  /** One escaped character reads back as itself, in front of whatever follows. */
  lemma ReadStringEscaped(c: char, tail: string)
    requires Escape(c) != [c]
    ensures ReadString(Escape(c) + tail)
            == match ReadString(tail) case None => None case Some(r) => Some(([c] + r.0, r.1))
  {
    ReadEscaped(c, tail);
    hide Escape, ReadEscape;
    assert (Escape(c) + tail)[1..] == Escape(c)[1..] + tail;
  }

  lemma UnescapedStart(c: char)
    requires Escape(c) == [c]
    ensures c >= ' ' && c != '"' && c != '\\'
  {
  }

  lemma {:induction false} StringRoundTrip(s: string, rest: string)
    ensures ReadString(Closed(s, rest)) == Some((s, rest))
  {
    hide Escape, ReadEscape;
    var text := Closed(s, rest);
    if s != [] {
      var tail := Closed(s[1..], rest);
      StringRoundTrip(s[1..], rest);
      if Escape(s[0]) == [s[0]] {
        assert text[1..] == tail;
        UnescapedStart(s[0]);
      } else {
        ReadStringEscaped(s[0], tail);
      }
      assert [s[0]] + s[1..] == s;
    } else {
      assert text[1..] == rest;
    }
  }

  // ---------- Rows ----------

  /** The time library's text form of an instant and its inverse. */
  datatype TimeCodec = TimeCodec(format: int -> string, parse: string -> Option<int>)

  /** What the library promises: instants survive the trip, and their text needs no escaping. */
  ghost predicate Faithful(tc: TimeCodec) {
    forall t: int :: Plain(tc.format(t)) && tc.parse(tc.format(t)) == Some(t)
  }

  /** Instants as signed decimal numbers, one library that keeps the promise. */
  function DecimalText(t: int): string {
    if t < 0 then "-" + Itoa(-t) else Itoa(t)
  }

  function DecimalInstant(s: string): Option<int> {
    if s != [] && AllDigits(s) then Some(Value(s))
    else if s != [] && s[0] == '-' && s[1..] != [] && AllDigits(s[1..]) then Some(-(Value(s[1..]) as int))
    else None
  }

  lemma DecimalIsFaithful()
    ensures Faithful(TimeCodec(DecimalText, DecimalInstant))
  {
    forall t: int
      ensures Plain(DecimalText(t)) && DecimalInstant(DecimalText(t)) == Some(t)
    {
      var n: nat := if t < 0 then -t else t;
      ItoaDigits(n);
      if t < 0 {
        assert DecimalText(t)[0] == '-' && !IsDigit('-') && DecimalText(t)[1..] == Itoa(n);
      }
      DigitsArePlain(DecimalText(t));
    }
  }

  lemma DigitsArePlain(s: string)
    requires forall i :: 0 <= i < |s| ==> IsDigit(s[i]) || s[i] == '-'
    ensures Plain(s)
  {
  }

  /** One `"key":"value"` member of an object, followed by `rest`. */
  function Member(key: string, value: string, rest: string): string {
    "\"" + Closed(key, ":\"" + Closed(value, rest))
  }

  function Encode(tc: TimeCodec, e: Entry): string {
    "{" + Member("id", e.id,
    "," + Member("kcli_name", e.kcliName,
    "," + Member("type", e.kind,
    "," + Member("status", e.status,
    "," + Member("created_at", tc.format(e.createdAt), "}")))))
  }

  function Expect(text: string, literal: string): Option<string> {
    if literal <= text then Some(text[|literal|..]) else None
  }

  function ReadMember(text: string, key: string): Option<(string, string)> {
    var open :- Expect(text, "\"");
    var name :- ReadString(open);
    var value :- Expect(name.1, ":\"");
    if name.0 == key then ReadString(value) else None
  }

  /** Decoding of a row in the layout the encoder produces. */
  function Decode(tc: TimeCodec, text: string): Option<Entry> {
    var t0 :- Expect(text, "{");
    var id :- ReadMember(t0, "id");
    var t1 :- Expect(id.1, ",");
    var kcliName :- ReadMember(t1, "kcli_name");
    var t2 :- Expect(kcliName.1, ",");
    var kind :- ReadMember(t2, "type");
    var t3 :- Expect(kind.1, ",");
    var status :- ReadMember(t3, "status");
    var t4 :- Expect(status.1, ",");
    var created :- ReadMember(t4, "created_at");
    var createdAt :- tc.parse(created.0);
    if created.1 == "}" then Some(Entry(id.0, kcliName.0, kind.0, status.0, createdAt)) else None
  }

  lemma ExpectSelf(literal: string, rest: string)
    ensures Expect(literal + rest, literal) == Some(rest)
  {
  }

  lemma MemberRoundTrip(key: string, value: string, rest: string)
    ensures ReadMember(Member(key, value, rest), key) == Some((value, rest))
  {
    ExpectSelf("\"", Closed(key, ":\"" + Closed(value, rest)));
    StringRoundTrip(key, ":\"" + Closed(value, rest));
    ExpectSelf(":\"", Closed(value, rest));
    StringRoundTrip(value, rest);
  }

  /** Every row survives being written and read back, whatever characters its fields hold. */
  lemma RoundTrip(tc: TimeCodec, e: Entry)
    requires Faithful(tc)
    ensures Decode(tc, Encode(tc, e)) == Some(e)
  {
    var m4 := Member("created_at", tc.format(e.createdAt), "}");
    var m3 := Member("status", e.status, "," + m4);
    var m2 := Member("type", e.kind, "," + m3);
    var m1 := Member("kcli_name", e.kcliName, "," + m2);
    var m0 := Member("id", e.id, "," + m1);
    ExpectSelf("{", m0);
    ExpectSelf(",", m1);
    ExpectSelf(",", m2);
    ExpectSelf(",", m3);
    ExpectSelf(",", m4);
    MemberRoundTrip("id", e.id, "," + m1);
    MemberRoundTrip("kcli_name", e.kcliName, "," + m2);
    MemberRoundTrip("type", e.kind, "," + m3);
    MemberRoundTrip("status", e.status, "," + m4);
    MemberRoundTrip("created_at", tc.format(e.createdAt), "}");
  }

  // ---------- The pre-filter ----------

  /** Whether `tag` occurs in `text` as a contiguous piece. */
  predicate Contains(text: string, tag: string) {
    tag <= text || (text != [] && Contains(text[1..], tag))
  }

  function TypeTag(word: string): string {
    "\"type\":\"" + word + "\""
  }

  lemma EscapeStart(c: char)
    ensures |Escape(c)| >= 1 && Escape(c)[0] != '"'
    ensures Escape(c)[0] != '\\' ==> Escape(c) == [c]
  {
  }

  lemma PlainHead(word: string)
    requires Plain(word) && word != []
    ensures Escape(word[0]) == [word[0]] && word[0] != '"' && word[0] != '\\' && Plain(word[1..])
  {
    assert Escape('"') != ['"'] && Escape('\\') != ['\\'];
  }

  lemma HeadsDiffer(a: string, b: string)
    requires a != [] && b != [] && a[0] != b[0]
    ensures !(a <= b)
  {
  }

  /** A plain word and a quote open the rest of a literal exactly when the literal's value is that word. */
  lemma {:induction false} WordThenQuote(word: string, value: string, rest: string)
    requires Plain(word)
    ensures word + "\"" <= Closed(value, rest) <==> value == word
    ensures value == word ==> Closed(value, rest) == word + "\"" + rest
  {
    hide Plain, Escape;
    var text := Closed(value, rest);
    if word != [] {
      PlainHead(word);
    }
    if value == [] {
      if word != [] {
        HeadsDiffer(word + "\"", text);
      }
    } else {
      EscapeStart(value[0]);
      assert text[0] == Escape(value[0])[0];
      if word == [] || text[0] != word[0] {
        HeadsDiffer(word + "\"", text);
      } else {
        assert Escape(value[0]) == [value[0]];
        var tail := Closed(value[1..], rest);
        WordThenQuote(word[1..], value[1..], rest);
        assert word + "\"" == [word[0]] + (word[1..] + "\"");
        PrefixCons(word[0], word[1..] + "\"", tail);
        assert value == [value[0]] + value[1..] && word == [word[0]] + word[1..];
      }
    }
  }

  lemma PrefixCons(c: char, a: string, b: string)
    ensures [c] + a <= [c] + b <==> a <= b
  {
    if [c] + a <= [c] + b {
      assert forall i :: 0 <= i < |a| ==> a[i] == ([c] + a)[i + 1] == ([c] + b)[i + 1] == b[i];
    }
  }

  /** Text without quotes cannot begin an occurrence of the tag. */
  lemma {:induction false} SkipPlain(piece: string, rest: string, word: string)
    requires '"' !in piece
    ensures Contains(piece + rest, TypeTag(word)) == Contains(rest, TypeTag(word))
  {
    if piece == [] {
      assert piece + rest == rest;
    } else {
      var text := piece + rest;
      assert text[0] == piece[0] != '"' == TypeTag(word)[0];
      assert text[1..] == piece[1..] + rest;
      SkipPlain(piece[1..], rest, word);
    }
  }

  /** A key and what follows it begin the rest of a literal exactly when the literal is that key, so followed. */
  lemma KeyThenTail(key: string, tail: string, value: string, rest: string)
    requires Plain(key)
    ensures (key + "\"") + tail <= Closed(value, rest) <==> value == key && tail <= rest
  {
    hide Plain, Escape;
    WordThenQuote(key, value, rest);
    hide Closed;
    if value == key {
      assert key + "\"" + rest == (key + "\"") + rest;
      PrefixAppend(key + "\"", tail, rest);
    } else {
      PrefixTrans(key + "\"", tail, Closed(value, rest));
    }
  }

  /** A quote followed by a value begins the tag only if that value is `type`, as a key. */
  lemma QuoteThenValue(value: string, rest: string, word: string)
    ensures TypeTag(word) <= "\"" + Closed(value, rest) <==> value == "type" && ":\"" + word + "\"" <= rest
  {
    var tail := ":\"" + word + "\"";
    assert Plain("type");
    hide Plain, Closed, Escape;
    assert TypeTag(word) == ['"'] + (("type" + "\"") + tail);
    PrefixCons('"', ("type" + "\"") + tail, Closed(value, rest));
    KeyThenTail("type", tail, value, rest);
  }

  lemma PrefixTrans(p: string, a: string, b: string)
    ensures p + a <= b ==> p <= b
  {
  }

  lemma PrefixAppend(p: string, a: string, b: string)
    ensures p + a <= p + b <==> a <= b
  {
    if p + a <= p + b {
      assert forall i :: 0 <= i < |a| ==> a[i] == (p + a)[|p| + i] == (p + b)[|p| + i] == b[i];
    }
  }

  /** No occurrence of the tag begins inside a value that is not a key. */
  lemma {:induction false} SkipValue(value: string, rest: string, word: string)
    requires Plain(word)
    requires rest != [] && rest[0] != ':' && rest[0] != 't'
    ensures Contains(Closed(value, rest), TypeTag(word)) == Contains(rest, TypeTag(word))
  {
    hide Plain, Escape;
    var text := Closed(value, rest);
    if value == [] {
      assert TypeTag(word)[1] == 't' && text[1] == rest[0];
      assert text[1..] == rest;
    } else {
      SkipValue(value[1..], rest, word);
      SkipChar(value[0], value[1..], rest, word);
    }
  }

  lemma EscapeQuotes(c: char)
    ensures if c == '"' then Escape(c) == "\\\"" else '"' !in Escape(c)
  {
  }

  /** No occurrence of the tag begins within one escaped character of such a value. */
  lemma SkipChar(c: char, value: string, rest: string, word: string)
    requires Plain(word)
    requires rest != [] && rest[0] != ':'
    ensures Contains(Escape(c) + Closed(value, rest), TypeTag(word)) == Contains(Closed(value, rest), TypeTag(word))
  {
    hide Plain, Escape, Closed;
    var tail := Closed(value, rest);
    EscapeQuotes(c);
    if c == '"' {
      QuoteThenValue(value, rest, word);
      assert Escape(c) + tail == "\\" + ("\"" + tail);
      SkipPlain("\\", "\"" + tail, word);
      assert ("\"" + tail)[1..] == tail;
      assert (":\"" + word + "\"")[0] == ':';
    } else {
      SkipPlain(Escape(c), tail, word);
    }
  }

  lemma PlainHasNoQuote(s: string)
    requires Plain(s)
    ensures '"' !in s
  {
  }

  /** Past a member's first quote, the tag can only occur after the member's value. */
  lemma SkipMemberTail(key: string, value: string, rest: string, word: string)
    requires Plain(word) && Plain(key)
    requires rest != [] && rest[0] != ':' && rest[0] != 't'
    ensures Contains(Closed(key, ":\"" + Closed(value, rest)), TypeTag(word)) == Contains(rest, TypeTag(word))
  {
    hide Plain, Escape;
    var body := Closed(value, rest);
    var after := ":\"" + body;
    var tag := TypeTag(word);
    assert Contains(Closed(key, after), tag) == Contains("\"" + after, tag) by {
      WordThenQuote(key, key, after);
      assert Closed(key, after) == key + ("\"" + after);
      PlainHasNoQuote(key);
      SkipPlain(key, "\"" + after, word);
    }
    SkipColon(body, word);
    assert Contains("\"" + body, tag) == Contains(body, tag) by {
      QuoteThenValue(value, rest, word);
      assert (":\"" + word + "\"")[0] == ':';
      assert ("\"" + body)[1..] == body;
    }
    SkipValue(value, rest, word);
  }

  /** The tag does not begin at the quote that closes a key, nor at the colon after it. */
  lemma SkipColon(body: string, word: string)
    ensures Contains("\"" + (":\"" + body), TypeTag(word)) == Contains("\"" + body, TypeTag(word))
  {
    var after := ":\"" + body;
    assert ("\"" + after)[1] == ':' && TypeTag(word)[1] == 't';
    assert ("\"" + after)[1..] == after;
    assert after == ":" + ("\"" + body);
    SkipPlain(":", "\"" + body, word);
  }

  /** The tag occurs in a member exactly when the member is that type, or further on. */
  lemma MemberContains(separator: char, key: string, value: string, rest: string, word: string)
    requires Plain(word) && Plain(key) && separator != '"'
    requires rest != [] && rest[0] != ':' && rest[0] != 't'
    ensures Contains([separator] + Member(key, value, rest), TypeTag(word))
            <==> (key == "type" && value == word) || Contains(rest, TypeTag(word))
  {
    var after := ":\"" + Closed(value, rest);
    var text := Member(key, value, rest);
    var tag := TypeTag(word);
    SkipPlain([separator], text, word);
    assert tag <= text <==> key == "type" && value == word by {
      QuoteThenValue(key, after, word);
      WordThenQuote(word, value, rest);
      assert ":\"" + word + "\"" == ":\"" + (word + "\"");
      PrefixAppend(":\"", word + "\"", Closed(value, rest));
    }
    assert text[1..] == Closed(key, after);
    SkipMemberTail(key, value, rest, word);
  }

  lemma NothingInBrace(word: string)
    ensures !Contains("}", TypeTag(word))
  {
  }

  predicate Lower(s: string) {
    forall i :: 0 <= i < |s| ==> 'a' <= s[i] <= 'z' || s[i] == '_'
  }

  lemma LowerIsPlain(s: string)
    requires Lower(s)
    ensures Plain(s)
  {
  }

  lemma KeysArePlain()
    ensures Plain("id") && Plain("kcli_name") && Plain("type") && Plain("status") && Plain("created_at")
  {
    hide Escape, Plain;
    LowerIsPlain("id");
    LowerIsPlain("kcli_name");
    LowerIsPlain("type");
    LowerIsPlain("status");
    LowerIsPlain("created_at");
  }

  /** The pre-filter is exact: a row's text contains the tag of a type iff the row has that type. */
  lemma PrefilterExact(tc: TimeCodec, e: Entry, word: string)
    requires Faithful(tc) && Plain(word)
    ensures Contains(Encode(tc, e), TypeTag(word)) <==> e.kind == word
  {
    var tag := TypeTag(word);
    KeysArePlain();
    var r4 := "," + Member("created_at", tc.format(e.createdAt), "}");
    var r3 := "," + Member("status", e.status, r4);
    var r2 := "," + Member("type", e.kind, r3);
    var r1 := "," + Member("kcli_name", e.kcliName, r2);
    assert !Contains(r4, tag) by {
      NothingInBrace(word);
      MemberContains(',', "created_at", tc.format(e.createdAt), "}", word);
    }
    assert !Contains(r3, tag) by {
      MemberContains(',', "status", e.status, r4, word);
    }
    assert Contains(r2, tag) <==> e.kind == word by {
      MemberContains(',', "type", e.kind, r3, word);
    }
    assert Contains(r1, tag) <==> e.kind == word by {
      MemberContains(',', "kcli_name", e.kcliName, r2, word);
    }
    MemberContains('{', "id", e.id, r1, word);
    assert Encode(tc, e) == "{" + Member("id", e.id, r1);
  }

  // ---------- The text, spelled out ----------

  /** The escapes: the short ones, the control and HTML characters by code, everything else as it is. */
  lemma EscapeTable(c: char)
    ensures Escape('"') == "\\\"" && Escape('\\') == "\\\\" && Escape('\n') == "\\n" && Escape('\r') == "\\r"
    ensures Escape('\t') == "\\t" && Escape('\U{8}') == "\\b" && Escape('\U{C}') == "\\f"
    ensures Escape('<') == "\\u003c" && Escape('>') == "\\u003e" && Escape('&') == "\\u0026"
    ensures Escape('\U{0}') == "\\u0000" && Escape('\U{1F}') == "\\u001f"
    ensures Escape('\U{2028}') == "\\u2028" && Escape('\U{2029}') == "\\u2029"
    ensures c >= ' ' && c !in "\"\\<>&\U{2028}\U{2029}" ==> Escape(c) == [c]
    ensures c < ' ' ==> Escape(c) != [c]
  {
  }

  function Escaped(s: string): string {
    if s == [] then [] else Escape(s[0]) + Escaped(s[1..])
  }

  lemma {:induction false} ClosedSays(value: string, rest: string)
    ensures Closed(value, rest) == Escaped(value) + "\"" + rest
  {
    hide Escape;
    if value != [] {
      ClosedSays(value[1..], rest);
    }
  }

  lemma {:induction false} PlainEscaped(s: string)
    requires Plain(s)
    ensures Escaped(s) == s
  {
    hide Escape;
    if s != [] {
      PlainEscaped(s[1..]);
      assert s == [s[0]] + s[1..];
    }
  }

  lemma Regroup(a: string, b: string, c: string)
    ensures a + (b + c) == (a + b) + c
  {
  }

  lemma MemberSays(open: string, key: string, value: string, rest: string, head: string)
    requires Plain(key) && head == open + "\"" + key + "\":\""
    ensures open + Member(key, value, rest) == head + (Escaped(value) + ("\"" + rest))
  {
    hide Escape, Plain, Closed, Escaped;
    var tail := Escaped(value) + ("\"" + rest);
    ClosedSays(value, rest);
    Regroup(Escaped(value), "\"", rest);
    ClosedSays(key, ":\"" + tail);
    PlainEscaped(key);
    Regroup(key + "\"", ":\"", tail);
    Regroup(key, "\"", ":\"");
    assert "\"" + ":\"" == "\":\"";
    Regroup("\"", key + "\":\"", tail);
    Regroup(open, "\"" + (key + "\":\""), tail);
    Regroup("\"", key, "\":\"");
    Regroup(open, "\"" + key, "\":\"");
    Regroup(open, "\"", key);
  }

  lemma NextMember(m: string)
    ensures "\"" + ("," + m) == "\"," + m
  {
  }

  /** The text of a stored row: five members in this order, under these names. */
  lemma EncodedText(tc: TimeCodec, e: Entry)
    requires Faithful(tc)
    ensures Encode(tc, e)
            == "{\"id\":\"" + (Escaped(e.id)
               + ("\",\"kcli_name\":\"" + (Escaped(e.kcliName)
               + ("\",\"type\":\"" + (Escaped(e.kind)
               + ("\",\"status\":\"" + (Escaped(e.status)
               + ("\",\"created_at\":\"" + (tc.format(e.createdAt) + "\"}")))))))))
  {
    hide Member, Escape, Escaped, Plain;
    PlainEscaped(tc.format(e.createdAt));
    KeysArePlain();
    var m4 := Member("created_at", tc.format(e.createdAt), "}");
    var m3 := Member("status", e.status, "," + m4);
    var m2 := Member("type", e.kind, "," + m3);
    var m1 := Member("kcli_name", e.kcliName, "," + m2);
    MemberSays("{", "id", e.id, "," + m1, "{\"id\":\"");
    NextMember(m1);
    MemberSays("\",", "kcli_name", e.kcliName, "," + m2, "\",\"kcli_name\":\"");
    NextMember(m2);
    MemberSays("\",", "type", e.kind, "," + m3, "\",\"type\":\"");
    NextMember(m3);
    MemberSays("\",", "status", e.status, "," + m4, "\",\"status\":\"");
    NextMember(m4);
    MemberSays("\",", "created_at", tc.format(e.createdAt), "}", "\",\"created_at\":\"");
  }
}
