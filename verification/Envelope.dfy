/**
 The hand-written JSON printer of outgoing frames, against a decoder written
 from RFC 8259: strings as in its section 7, objects as in section 4, with the
 insignificant whitespace of section 2. A `char` is a Unicode scalar value.
 */
module Envelope {
  import opened PeerTable

  /** The members of an object whose values are all strings, in order. */
  type Fields = seq<(string, string)>

  // --------------------------------------------------------------- decoder

  function HexValue(c: char): Option<nat> {
    if '0' <= c <= '9' then Some(c as int - '0' as int)
    else if 'a' <= c <= 'f' then Some(c as int - 'a' as int + 10)
    else if 'A' <= c <= 'F' then Some(c as int - 'A' as int + 10)
    else None
  }

  /** Four hexadecimal digits. */
  function Hex4(t: string): (r: Option<nat>)
    ensures r.Some? ==> |t| >= 4 && r.value < 0x1_0000
  {
    if |t| < 4 then None
    else
      match (HexValue(t[0]), HexValue(t[1]), HexValue(t[2]), HexValue(t[3]))
      case (Some(a), Some(b), Some(c), Some(d)) =>
        if a < 16 && b < 16 && c < 16 && d < 16 then Some(a * 4096 + b * 256 + c * 16 + d) else None
      case _ => None
  }

  /** What follows a backslash and `u`: one code unit, or a surrogate pair. */
  function DecodeUnicode(t: string): (r: Option<(char, string)>)
    ensures r.Some? ==> |r.value.1| < |t|
  {
    match Hex4(t)
    case None => None
    case Some(unit) =>
      if 0xD800 <= unit < 0xDC00 then
        if |t| < 6 || t[4] != '\\' || t[5] != 'u' then None
        else
          match Hex4(t[6..])
          case None => None
          case Some(low) =>
            if 0xDC00 <= low < 0xE000
            then Some(((0x1_0000 + (unit - 0xD800) * 0x400 + (low - 0xDC00)) as char, t[10..]))
            else None
      else if 0xDC00 <= unit < 0xE000 then None
      else Some((unit as char, t[4..]))
  }

  /** What follows a backslash. */
  function DecodeEscape(t: string): (r: Option<(char, string)>)
    ensures r.Some? ==> |r.value.1| < |t|
  {
    if t == [] then None
    else
      match t[0]
      case '"' => Some(('"', t[1..]))
      case '\\' => Some(('\\', t[1..]))
      case '/' => Some(('/', t[1..]))
      case 'b' => Some((8 as char, t[1..]))
      case 'f' => Some((12 as char, t[1..]))
      case 'n' => Some(('\n', t[1..]))
      case 'r' => Some(('\r', t[1..]))
      case 't' => Some(('\t', t[1..]))
      case 'u' => DecodeUnicode(t[1..])
      case _ => None
  }

  /** The characters up to the closing quote, and what follows it. */
  function DecodeChars(t: string): (r: Option<(string, string)>)
    ensures r.Some? ==> |r.value.1| < |t|
    decreases |t|
  {
    if t == [] then None
    else if t[0] == '"' then Some(([], t[1..]))
    else if t[0] == '\\' then
      match DecodeEscape(t[1..])
      case None => None
      case Some((c, rest)) => Prepend(c, DecodeChars(rest))
    else if t[0] < ' ' then None
    else Prepend(t[0], DecodeChars(t[1..]))
  }

  function Prepend(c: char, r: Option<(string, string)>): Option<(string, string)> {
    match r
    case None => None
    case Some((s, rest)) => Some(([c] + s, rest))
  }

  /** A quoted string, and what follows it. */
  function DecodeString(t: string): (r: Option<(string, string)>)
    ensures r.Some? ==> |r.value.1| < |t|
  {
    if t == [] || t[0] != '"' then None else DecodeChars(t[1..])
  }

  function SkipSpace(t: string): (r: string)
    ensures |r| <= |t|
  {
    if t != [] && (t[0] == ' ' || t[0] == '\t' || t[0] == '\n' || t[0] == '\r') then SkipSpace(t[1..]) else t
  }

  /** A name, a colon and a string. */
  function DecodeMember(t: string): (r: Option<((string, string), string)>)
    ensures r.Some? ==> |r.value.1| < |t|
  {
    match DecodeString(SkipSpace(t))
    case None => None
    case Some((name, afterName)) =>
      var colon := SkipSpace(afterName);
      if colon == [] || colon[0] != ':' then None
      else
        match DecodeString(SkipSpace(colon[1..]))
        case None => None
        case Some((value, rest)) => Some(((name, value), SkipSpace(rest)))
  }

  /** Members up to the closing brace, and what follows it. */
  function DecodeMembers(t: string): Option<(Fields, string)>
    decreases |t|
  {
    match DecodeMember(t)
    case None => None
    case Some((field, rest)) =>
      if rest == [] then None
      else if rest[0] == '}' then Some(([field], rest[1..]))
      else if rest[0] != ',' then None
      else
        match DecodeMembers(rest[1..])
        case None => None
        case Some((fields, end)) => Some(([field] + fields, end))
  }

  /** A whole text holding one object of strings. */
  function DecodeObject(text: string): Option<Fields> {
    var t := SkipSpace(text);
    if t == [] || t[0] != '{' then None
    else
      var body := SkipSpace(t[1..]);
      if body != [] && body[0] == '}' then if SkipSpace(body[1..]) == [] then Some([]) else None
      else
        match DecodeMembers(body)
        case None => None
        case Some((fields, end)) => if SkipSpace(end) == [] then Some(fields) else None
  }

  // --------------------------------------------------------------- printer

  function HexDigit(n: nat): char
    requires n < 16
  {
    if n < 10 then ('0' as int + n) as char else ('a' as int + (n - 10)) as char
  }

  /** How one character is written. */
  function EscapeChar(c: char): string {
    if c == '"' then ['\\', '"']
    else if c == '\\' then ['\\', '\\']
    else if c == '\n' then ['\\', 'n']
    else if c == '\r' then ['\\', 'r']
    else if c == '\t' then ['\\', 't']
    else if c as int == 8 then ['\\', 'b']
    else if c as int == 12 then ['\\', 'f']
    else if c as int < 0x20 then ['\\', 'u', '0', '0', HexDigit(c as int / 16), HexDigit(c as int % 16)]
    else [c]
  }

  function Escaped(s: string): string {
    if s == [] then [] else EscapeChar(s[0]) + Escaped(s[1..])
  }

  function Quoted(s: string): string {
    ['"'] + Escaped(s) + ['"']
  }

  method WriteJsonString(buf: string, s: string) returns (out: string)
    ensures out == buf + Quoted(s)
  {
    var start := buf + ['"'];
    out := start;
    for i := 0 to |s|
      invariant out == start + Escaped(s[..i])
    {
      assert s[..i + 1] == s[..i] + [s[i]];
      EscapedSnoc(s[..i], s[i]);
      Regroup(start, Escaped(s[..i]), EscapeChar(s[i]));
      out := out + EscapeChar(s[i]);
    }
    assert s[..|s|] == s;
    out := out + ['"'];
    assert start + Escaped(s) + ['"'] == buf + Quoted(s);
  }

  lemma Regroup(a: string, b: string, c: string)
    ensures a + b + c == a + (b + c)
  {
  }

  /** The text decodes to exactly the given fields and holds no raw control character. */
  ghost predicate Prints(text: string, fields: Fields) {
    && DecodeObject(text) == Some(fields)
    && NoControl(text)
  }

  ghost predicate NoControl(text: string) {
    forall c | c in text :: c >= ' '
  }

  function OptionalField(name: string, value: Option<string>): Fields {
    match value
    case None => []
    case Some(v) => [(name, v)]
  }

  /** A separator with the field's name, then its value. */
  method WriteField(buf: string, prefix: string, value: string) returns (out: string)
    ensures out == buf + prefix + Quoted(value)
  {
    out := buf + prefix;
    out := WriteJsonString(out, value);
  }

  method EncodeEnvelopeRawData(event: string, data: Option<string>, channel: Option<string>) returns (buf: string)
    ensures
      var fields := [("event", event)] + OptionalField("data", data) + OptionalField("channel", channel);
      buf == Printed(fields) && Prints(buf, fields)
  {
    ghost var fields := [("event", event)];
    buf := WriteField("{", "\"event\":", event);
    FirstField(event);
    if data.Some? {
      buf := WriteField(buf, ",\"data\":", data.value);
      DataField(fields, data.value);
    } else {
      assert fields + [] == fields;
    }
    fields := fields + OptionalField("data", data);
    assert buf == Open(fields);
    if channel.Some? {
      buf := WriteField(buf, ",\"channel\":", channel.value);
      ChannelField(fields, channel.value);
    } else {
      assert fields + [] == fields;
    }
    fields := fields + OptionalField("channel", channel);
    assert buf == Open(fields);
    buf := buf + "}";
    PrintedPrints(fields);
  }

  /** A relayed client event: the closing brace is popped to add the sender's id. */
  method EncodeClientEvent(event: string, data: string, channel: string, userId: Option<string>) returns (buf: string)
    ensures
      var fields := [("event", event), ("data", data), ("channel", channel)] + OptionalField("user_id", userId);
      buf == Printed(fields) && Prints(buf, fields)
  {
    buf := EncodeEnvelopeRawData(event, Some(data), Some(channel));
    ghost var fields := [("event", event), ("data", data), ("channel", channel)];
    assert [("event", event)] + [("data", data)] + [("channel", channel)] == fields;
    if userId.Some? {
      buf := buf[..|buf| - 1];
      buf := WriteField(buf, ",\"user_id\":", userId.value);
      UserIdField(fields, userId.value);
      buf := buf + "}";
      PrintedPrints(fields + [("user_id", userId.value)]);
    } else {
      assert fields + [] == fields;
    }
  }

  // ---------------------------------------------------- printed text, whole

  function PrintedMember(field: (string, string)): string {
    Quoted(field.0) + [':'] + Quoted(field.1)
  }

  /** The members with commas between them. */
  function Joined(fields: Fields): string
    requires fields != []
  {
    if |fields| == 1 then PrintedMember(fields[0])
    else PrintedMember(fields[0]) + [','] + Joined(fields[1..])
  }

  /** Everything up to the closing brace. */
  function Open(fields: Fields): string
    requires fields != []
  {
    ['{'] + Joined(fields)
  }

  function Printed(fields: Fields): string
    requires fields != []
  {
    Open(fields) + ['}']
  }

  lemma {:induction false} JoinedSnoc(fields: Fields, last: (string, string))
    requires fields != []
    ensures Joined(fields + [last]) == Joined(fields) + [','] + PrintedMember(last)
  {
    var all := fields + [last];
    if |fields| == 1 {
      assert all[1..] == [last];
    } else {
      assert all[1..] == fields[1..] + [last];
      JoinedSnoc(fields[1..], last);
      Grouped(PrintedMember(fields[0]), Joined(fields[1..]), PrintedMember(last));
    }
  }

  lemma Grouped(a: string, b: string, c: string)
    ensures a + [','] + (b + [','] + c) == a + [','] + b + [','] + c
  {
  }

  /** A name with nothing to escape is written as it is. */
  ghost predicate IsPlain(name: string) {
    forall i | 0 <= i < |name| :: Plain(name[i])
  }

  lemma FieldAdded(fields: Fields, name: string, value: string)
    requires fields != [] && IsPlain(name)
    ensures Open(fields + [(name, value)]) == Open(fields) + ([',', '"'] + name + ['"', ':']) + Quoted(value)
  {
    JoinedSnoc(fields, (name, value));
    PlainIsUnchanged(name);
    Spliced(Joined(fields), name, Quoted(value));
  }

  lemma Spliced(a: string, n: string, v: string)
    ensures ['{'] + (a + [','] + (['"'] + n + ['"'] + [':'] + v)) == ['{'] + a + ([',', '"'] + n + ['"', ':']) + v
  {
  }

  lemma FieldFirst(name: string, value: string)
    requires IsPlain(name)
    ensures Open([(name, value)]) == ['{'] + (['"'] + name + ['"', ':']) + Quoted(value)
  {
    PlainIsUnchanged(name);
    assert Quoted(name) + [':'] == ['"'] + name + ['"', ':'];
  }

  lemma FirstField(event: string)
    ensures "{" + "\"event\":" + Quoted(event) == Open([("event", event)])
  {
    FieldFirst("event", event);
    assert "\"event\":" == ['"'] + "event" + ['"', ':'];
  }

  lemma DataField(fields: Fields, value: string)
    requires fields != []
    ensures Open(fields) + ",\"data\":" + Quoted(value) == Open(fields + [("data", value)])
  {
    FieldAdded(fields, "data", value);
    assert ",\"data\":" == [',', '"'] + "data" + ['"', ':'];
  }

  lemma ChannelField(fields: Fields, value: string)
    requires fields != []
    ensures Open(fields) + ",\"channel\":" + Quoted(value) == Open(fields + [("channel", value)])
  {
    FieldAdded(fields, "channel", value);
    assert ",\"channel\":" == [',', '"'] + "channel" + ['"', ':'];
  }

  lemma UserIdField(fields: Fields, value: string)
    requires fields != []
    ensures Open(fields) + ",\"user_id\":" + Quoted(value) == Open(fields + [("user_id", value)])
  {
    FieldAdded(fields, "user_id", value);
    assert ",\"user_id\":" == [',', '"'] + "user_id" + ['"', ':'];
  }

  predicate Plain(c: char) {
    ' ' <= c && c != '"' && c != '\\'
  }

  lemma {:induction false} PlainIsUnchanged(s: string)
    requires IsPlain(s)
    ensures Escaped(s) == s
  {
    if s != [] {
      assert Plain(s[0]);
      PlainIsUnchanged(s[1..]);
      assert s == [s[0]] + s[1..];
    }
  }

  lemma {:induction false} EscapedSnoc(s: string, c: char)
    ensures Escaped(s + [c]) == Escaped(s) + EscapeChar(c)
  {
    if s == [] {
      assert s + [c] == [c];
      assert Escaped([c]) == EscapeChar(c) + Escaped([]);
    } else {
      assert (s + [c])[1..] == s[1..] + [c];
      EscapedSnoc(s[1..], c);
    }
  }

  // ------------------------------------------------------------ round trip

  /** Decoding one written character gives it back. */
  lemma EscapeCharDecodes(c: char, rest: string)
    ensures DecodeChars(EscapeChar(c) + rest) == Prepend(c, DecodeChars(rest))
  {
    var t := EscapeChar(c) + rest;
    if |EscapeChar(c)| == 1 {
      assert t[1..] == rest;
    } else if |EscapeChar(c)| == 2 {
      assert t[1..][1..] == rest;
    } else {
      ControlDecodes(c, rest);
      assert t[1..] == EscapeChar(c)[1..] + rest;
    }
  }

  lemma ControlDecodes(c: char, rest: string)
    requires c as int < 0x20
    ensures DecodeEscape(['u', '0', '0', HexDigit(c as int / 16), HexDigit(c as int % 16)] + rest) == Some((c, rest))
  {
    var digits := ['0', '0', HexDigit(c as int / 16), HexDigit(c as int % 16)];
    var t := ['u'] + digits + rest;
    assert t == ['u', '0', '0', HexDigit(c as int / 16), HexDigit(c as int % 16)] + rest;
    assert t[1..] == digits + rest;
    assert (digits + rest)[4..] == rest;
    assert Hex4(digits + rest) == Some(c as int);
  }

  lemma {:induction false} EscapedDecodes(s: string, rest: string)
    ensures DecodeChars(Escaped(s) + ['"'] + rest) == Some((s, rest))
  {
    if s == [] {
      assert Escaped(s) + ['"'] + rest == ['"'] + rest;
    } else {
      EscapedDecodes(s[1..], rest);
      var tail := Escaped(s[1..]) + ['"'] + rest;
      assert Escaped(s) + ['"'] + rest == EscapeChar(s[0]) + tail;
      EscapeCharDecodes(s[0], tail);
      assert s == [s[0]] + s[1..];
    }
  }

  lemma QuoteSplit(inner: string, rest: string)
    ensures var t := ['"'] + inner + ['"'] + rest; t[0] == '"' && t[1..] == inner + ['"'] + rest
  {
  }

  lemma QuotedDecodes(s: string, rest: string)
    ensures DecodeString(Quoted(s) + rest) == Some((s, rest))
    ensures SkipSpace(Quoted(s) + rest) == Quoted(s) + rest
  {
    EscapedDecodes(s, rest);
    QuoteSplit(Escaped(s), rest);
  }

  lemma MemberDecodes(field: (string, string), rest: string)
    requires rest != [] && (rest[0] == ',' || rest[0] == '}')
    ensures DecodeMember(PrintedMember(field) + rest) == Some((field, rest))
  {
    var name, value := Quoted(field.0), Quoted(field.1) + rest;
    QuotedDecodes(field.1, rest);
    QuotedDecodes(field.0, [':'] + value);
    MemberSplit(name, Quoted(field.1), rest);
    assert ([':'] + value)[1..] == value;
    assert SkipSpace([':'] + value) == [':'] + value;
    assert SkipSpace(rest) == rest;
  }

  lemma MemberSplit(name: string, value: string, rest: string)
    ensures name + [':'] + value + rest == name + ([':'] + (value + rest))
  {
  }

  lemma OneMoreDecodes(field: (string, string), tail: string, fields: Fields)
    requires DecodeMembers(tail) == Some((fields, []))
    ensures DecodeMembers(PrintedMember(field) + ([','] + tail)) == Some(([field] + fields, []))
  {
    MemberDecodes(field, [','] + tail);
    assert ([','] + tail)[1..] == tail;
  }

  lemma LastDecodes(field: (string, string))
    ensures DecodeMembers(PrintedMember(field) + ['}']) == Some(([field], []))
  {
    MemberDecodes(field, ['}']);
    assert ['}'][1..] == [];
  }

  lemma {:induction false} JoinedDecodes(fields: Fields)
    requires fields != []
    ensures DecodeMembers(Joined(fields) + ['}']) == Some((fields, []))
  {
    if |fields| == 1 {
      LastDecodes(fields[0]);
      assert fields == [fields[0]];
    } else {
      JoinedDecodes(fields[1..]);
      OneMoreDecodes(fields[0], Joined(fields[1..]) + ['}'], fields[1..]);
      MemberThenRest(PrintedMember(fields[0]), Joined(fields[1..]));
      assert fields == [fields[0]] + fields[1..];
    }
  }

  lemma MemberThenRest(a: string, b: string)
    ensures a + [','] + b + ['}'] == a + ([','] + (b + ['}']))
  {
  }

  /** Decoding what the printer writes gives back every field, whatever characters it holds. */
  lemma PrintedDecodes(fields: Fields)
    requires fields != []
    ensures DecodeObject(Printed(fields)) == Some(fields)
  {
    JoinedDecodes(fields);
    Regroup(['{'], Joined(fields), ['}']);
    var body := Joined(fields) + ['}'];
    assert (['{'] + body)[1..] == body;
    assert body[0] == '"' by {
      assert Joined(fields)[0] == PrintedMember(fields[0])[0] == Quoted(fields[0].0)[0];
    }
  }

  lemma {:induction false} EscapedHasNoControl(s: string)
    ensures NoControl(Escaped(s))
  {
    if s != [] {
      EscapedHasNoControl(s[1..]);
    }
  }

  lemma {:induction false} JoinedHasNoControl(fields: Fields)
    requires fields != []
    ensures NoControl(Joined(fields))
  {
    EscapedHasNoControl(fields[0].0);
    EscapedHasNoControl(fields[0].1);
    assert NoControl(PrintedMember(fields[0]));
    if |fields| > 1 {
      JoinedHasNoControl(fields[1..]);
    }
  }

  lemma PrintedPrints(fields: Fields)
    requires fields != []
    ensures Prints(Printed(fields), fields)
  {
    PrintedDecodes(fields);
    JoinedHasNoControl(fields);
  }
}
