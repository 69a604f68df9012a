/**
 The checklist state of the resources page, a plain object of booleans, and
 the part of JSON it goes through on its way to and from storage:
 `JSON.stringify` of such an object and `JSON.parse` of text that denotes
 one. Objects keep their properties in insertion order.
 */
module CheckedJson {
  import opened Wrappers

  /** A property and its value. */
  type Entry = (string, bool)

  /** An object of booleans as its properties in order. */
  type Checked = seq<Entry>

  /** A JavaScript object never holds a property twice. */
  predicate DistinctKeys(m: Checked) {
    forall i, j :: 0 <= i < j < |m| ==> m[i].0 != m[j].0
  }

  /** Reading property `k`. */
  function Lookup(m: Checked, k: string): (r: Option<bool>)
    ensures r.None? <==> forall i :: 0 <= i < |m| ==> m[i].0 != k
    ensures r.Some? ==> (k, r.value) in m
  {
    if m == [] then None
    else if m[0].0 == k then Some(m[0].1)
    else
      var r := Lookup(m[1..], k);
      assert forall i :: 1 <= i < |m| ==> m[i] == m[1..][i - 1];
      assert r.Some? ==> (k, r.value) in m by {
        if r.Some? {
          assert m == [m[0]] + m[1..];
        }
      }
      r
  }

  /** Assigning property `k`: an existing property keeps its place, a new one goes last. */
  function Set(m: Checked, k: string, v: bool): (r: Checked)
    ensures Lookup(m, k).Some? ==> |r| == |m|
    ensures Lookup(m, k).None? ==> r == m + [(k, v)]
  {
    if m == [] then [(k, v)]
    else if m[0].0 == k then [(k, v)] + m[1..]
    else [m[0]] + Set(m[1..], k, v)
  }

  /** Assignment leaves every other property as it was. */
  lemma {:induction false} SetOther(m: Checked, k: string, v: bool, other: string)
    requires other != k
    ensures Lookup(Set(m, k, v), other) == Lookup(m, other)
    decreases |m|
  {
    if m != [] {
      var r := Set(m, k, v);
      if m[0].0 == k {
        assert r[1..] == m[1..];
      } else {
        SetOther(m[1..], k, v, other);
        assert r[1..] == Set(m[1..], k, v);
      }
    }
  }

  /** Reading a property just assigned gives the assigned value. */
  lemma {:induction false} SetLookup(m: Checked, k: string, v: bool)
    ensures Lookup(Set(m, k, v), k) == Some(v)
    decreases |m|
  {
    if m != [] && m[0].0 != k {
      SetLookup(m[1..], k, v);
      assert Set(m, k, v)[1..] == Set(m[1..], k, v);
    }
  }

  /** The properties after the first of an object without repeated keys: none repeats,
      and none has the first one's key. */
  lemma DistinctTail(m: Checked)
    requires m != [] && DistinctKeys(m)
    ensures DistinctKeys(m[1..])
    ensures Lookup(m[1..], m[0].0).None?
  {
    forall i, j | 0 <= i < j < |m[1..]| ensures m[1..][i].0 != m[1..][j].0 {
      assert m[1..][i] == m[i + 1] && m[1..][j] == m[j + 1];
    }
    forall i | 0 <= i < |m[1..]| ensures m[1..][i].0 != m[0].0 {
      assert m[1..][i] == m[i + 1];
    }
  }

  /** A property in front of others with different keys repeats no key. */
  lemma DistinctCons(x: Entry, t: Checked)
    requires DistinctKeys(t) && Lookup(t, x.0).None?
    ensures DistinctKeys([x] + t)
  {
    var r := [x] + t;
    forall i, j | 0 <= i < j < |r| ensures r[i].0 != r[j].0 {
      assert r[j] == t[j - 1];
      if i > 0 {
        assert r[i] == t[i - 1];
      }
    }
  }

  /** Assignment keeps the keys distinct. */
  lemma {:induction false} SetKeepsDistinct(m: Checked, k: string, v: bool)
    requires DistinctKeys(m)
    ensures DistinctKeys(Set(m, k, v))
    decreases |m|
  {
    if m != [] {
      DistinctTail(m);
      if m[0].0 != k {
        SetKeepsDistinct(m[1..], k, v);
        SetOther(m[1..], k, v, m[0].0);
        DistinctCons(m[0], Set(m[1..], k, v));
      } else {
        DistinctCons((k, v), m[1..]);
      }
    }
  }

  // ---------------------------------------------------------------------------
  // JSON.stringify

  function LowerHex(d: nat): (c: char)
    requires d < 16
  {
    if d < 10 then ('0' as int + d) as char else ('a' as int + d - 10) as char
  }

  /** How `JSON.stringify` writes one character of a string: the quote and the backslash
      escaped, the five control characters with short escapes by letter, the other
      control characters as `\u00xx` in lower-case hex, everything else as itself. */
  function EscapeChar(c: char): (r: string)
    ensures |r| >= 1 && r[0] != '"'
    ensures c != '"' && c != '\\' && c >= ' ' ==> r == [c]
  {
    if c == '"' then "\\\""
    else if c == '\\' then "\\\\"
    else if c == '\U{0008}' then "\\b"
    else if c == '\U{000C}' then "\\f"
    else if c == '\n' then "\\n"
    else if c == '\r' then "\\r"
    else if c == '\t' then "\\t"
    else if c < ' ' then "\\u00" + [LowerHex(c as int / 16), LowerHex(c as int % 16)]
    else [c]
  }

  function Escape(s: string): string {
    if s == [] then [] else EscapeChar(s[0]) + Escape(s[1..])
  }

  /** A string value: the escaped characters between double quotes. */
  function Quote(s: string): (r: string)
    ensures |r| >= 2 && r[0] == '"' && r[|r| - 1] == '"'
  {
    "\"" + Escape(s) + "\""
  }

  function BoolText(b: bool): string {
    if b then "true" else "false"
  }

  function EntryText(e: Entry): string {
    Quote(e.0) + ":" + BoolText(e.1)
  }

  /** The properties, separated by commas, with no white space. */
  function Members(m: Checked): string
    requires m != []
  {
    EntryText(m[0]) + (if |m| == 1 then "" else "," + Members(m[1..]))
  }

  /** `JSON.stringify(m)`. */
  function Stringify(m: Checked): (r: string)
    ensures |r| >= 2 && r[0] == '{' && r[|r| - 1] == '}'
    ensures m == [] <==> r == "{}"
  {
    "{" + (if m == [] then "" else Members(m)) + "}"
  }

  // ---------------------------------------------------------------------------
  // JSON.parse

  /** The four characters JSON allows between tokens. */
  predicate IsJsonSpace(c: char) {
    c == ' ' || c == '\t' || c == '\n' || c == '\r'
  }

  function SkipSpace(s: string): (r: string)
    ensures |r| <= |s|
    ensures r == [] || !IsJsonSpace(r[0])
    ensures s == [] || !IsJsonSpace(s[0]) ==> r == s
  {
    if s != [] && IsJsonSpace(s[0]) then SkipSpace(s[1..]) else s
  }

  function HexValue(c: char): Option<nat> {
    if '0' <= c <= '9' then Some(c as int - '0' as int)
    else if 'a' <= c <= 'f' then Some(c as int - 'a' as int + 10)
    else if 'A' <= c <= 'F' then Some(c as int - 'A' as int + 10)
    else None
  }

  /** The code unit of a `\uXXXX` escape, four hex digits of either case. */
  function Hex4(s: string): (r: Option<nat>)
    requires |s| >= 4
    ensures r.Some? ==> r.value < 0x1_0000
  {
    match (HexValue(s[0]), HexValue(s[1]), HexValue(s[2]), HexValue(s[3]))
    case (Some(a), Some(b), Some(c), Some(d)) =>
      if a < 16 && b < 16 && c < 16 && d < 16 then Some(((a * 16 + b) * 16 + c) * 16 + d) else None
    case _ => None
  }

  /** One character of a string body that does not close it: an escape sequence or a
      character other than a control character. Returns the character and what follows. */
  function ParseStringChar(s: string): (r: Option<(char, string)>)
    requires s != [] && s[0] != '"'
    ensures r.Some? ==> |r.value.1| < |s|
  {
    if s[0] == '\\' then
      if |s| < 2 then None
      else if s[1] == '"' then Some(('"', s[2..]))
      else if s[1] == '\\' then Some(('\\', s[2..]))
      else if s[1] == '/' then Some(('/', s[2..]))
      else if s[1] == 'b' then Some(('\U{0008}', s[2..]))
      else if s[1] == 'f' then Some(('\U{000C}', s[2..]))
      else if s[1] == 'n' then Some(('\n', s[2..]))
      else if s[1] == 'r' then Some(('\r', s[2..]))
      else if s[1] == 't' then Some(('\t', s[2..]))
      else if s[1] == 'u' && |s| >= 6 then
        match Hex4(s[2..6])
        case Some(v) =>
          if 0xD800 <= v < 0xDC00 then SurrogatePair(v, s[6..])
          else if 0xDC00 <= v < 0xE000 then None
          else Some((v as char, s[6..]))
        case None => None
      else None
    else if s[0] < ' ' then None
    else Some((s[0], s[1..]))
  }

  /** A high surrogate escape `high` followed by a `\uXXXX` low surrogate escape: the two
      code units stand for one character beyond U+FFFF. A high surrogate without its low
      half names no character. */
  function SurrogatePair(high: nat, s: string): (r: Option<(char, string)>)
    requires 0xD800 <= high < 0xDC00
    ensures r.Some? ==> |r.value.1| + 6 <= |s|
    ensures r.Some? ==> 0x1_0000 <= r.value.0 as int < 0x11_0000
  {
    if |s| >= 6 && s[0] == '\\' && s[1] == 'u' then
      match Hex4(s[2..6])
      case Some(low) =>
        if 0xDC00 <= low < 0xE000 then
          Some(((0x1_0000 + (high - 0xD800) * 0x400 + (low - 0xDC00)) as char, s[6..]))
        else None
      case None => None
    else None
  }

  /** The rest of a string after its opening quote, through the closing quote. */
  function ParseStringBody(s: string): (r: Option<(string, string)>)
    ensures r.Some? ==> |r.value.1| < |s|
    decreases |s|
  {
    if s == [] then None
    else if s[0] == '"' then Some(([], s[1..]))
    else
      match ParseStringChar(s)
      case None => None
      case Some((c, rest)) =>
        match ParseStringBody(rest)
        case None => None
        case Some((t, after)) => Some(([c] + t, after))
  }

  function ParseString(s: string): (r: Option<(string, string)>)
    ensures r.Some? ==> |r.value.1| < |s|
  {
    if s != [] && s[0] == '"' then ParseStringBody(s[1..]) else None
  }

  function ParseBool(s: string): (r: Option<(bool, string)>)
    ensures r.Some? ==> |r.value.1| < |s|
  {
    if "true" <= s then Some((true, s[4..]))
    else if "false" <= s then Some((false, s[5..]))
    else None
  }

  /** `"key" : value`, with white space allowed around each token. */
  function ParseEntry(s: string): (r: Option<(Entry, string)>)
    ensures r.Some? ==> |r.value.1| < |s|
  {
    match ParseString(SkipSpace(s))
    case None => None
    case Some((key, rest)) =>
      var t := SkipSpace(rest);
      if t == [] || t[0] != ':' then None
      else
        match ParseBool(SkipSpace(t[1..]))
        case None => None
        case Some((value, after)) => Some(((key, value), SkipSpace(after)))
  }

  /** The properties after `{`, through the closing `}`. Each one is assigned to `acc` in
      turn, so a repeated key keeps its first place and takes its last value. */
  function ParseMembers(s: string, acc: Checked): (r: Option<(Checked, string)>)
    decreases |s|
  {
    match ParseEntry(s)
    case None => None
    case Some((e, rest)) =>
      var next := Set(acc, e.0, e.1);
      if rest == [] then None
      else if rest[0] == ',' then ParseMembers(rest[1..], next)
      else if rest[0] == '}' then Some((next, rest[1..]))
      else None
  }

  /** Parsing into an object without repeated keys never repeats one. */
  lemma {:induction false} ParseMembersDistinct(s: string, acc: Checked)
    requires DistinctKeys(acc)
    ensures ParseMembers(s, acc).Some? ==> DistinctKeys(ParseMembers(s, acc).value.0)
    decreases |s|
  {
    var entry := ParseEntry(s);
    if entry.Some? {
      var e := entry.value.0;
      var rest := entry.value.1;
      var next := Set(acc, e.0, e.1);
      SetKeepsDistinct(acc, e.0, e.1);
      if rest != [] && rest[0] == ',' {
        ParseMembersDistinct(rest[1..], next);
        assert ParseMembers(s, acc) == ParseMembers(rest[1..], next);
      } else if rest != [] && rest[0] == '}' {
        assert ParseMembers(s, acc) == Some((next, rest[1..]));
      }
    }
  }

  function ParseObject(s: string): (r: Option<(Checked, string)>)
    ensures r.Some? ==> DistinctKeys(r.value.0)
  {
    var t := SkipSpace(s);
    if t == [] || t[0] != '{' then None
    else
      var u := SkipSpace(t[1..]);
      if u != [] && u[0] == '}' then Some(([], u[1..]))
      else
        ParseMembersDistinct(u, []);
        ParseMembers(u, [])
  }

  /** `JSON.parse(s)` for text that denotes an object of booleans, with nothing but white
      space after it; `None` for anything else. */
  function Parse(s: string): (r: Option<Checked>)
    ensures r.Some? ==> DistinctKeys(r.value)
  {
    match ParseObject(s)
    case None => None
    case Some((m, rest)) => if SkipSpace(rest) == [] then Some(m) else None
  }

  // ---------------------------------------------------------------------------
  // Round trip

  lemma LowerHexValue(d: nat)
    requires d < 16
    ensures HexValue(LowerHex(d)) == Some(d)
  {
  }

  /** `\uXXXX` for one UTF-16 code unit, in lower-case hex. */
  function UnitEscape(u: nat): (r: string)
    requires u < 0x1_0000
    ensures |r| == 6
  {
    var q := u / 16;
    var p := q / 16;
    "\\u" + [LowerHex(p / 16), LowerHex(p % 16), LowerHex(q % 16), LowerHex(u % 16)]
  }

  lemma UnitEscapeValue(u: nat, tail: string)
    requires u < 0x1_0000
    ensures var s := UnitEscape(u) + tail;
      s[0] == '\\' && s[1] == 'u' && Hex4(s[2..6]) == Some(u) && s[6..] == tail
  {
    var q := u / 16;
    var p := q / 16;
    var a, b, c, d := p / 16, p % 16, q % 16, u % 16;
    var s := UnitEscape(u) + tail;
    LowerHexValue(a);
    LowerHexValue(b);
    LowerHexValue(c);
    LowerHexValue(d);
    assert s[2..6] == [LowerHex(a), LowerHex(b), LowerHex(c), LowerHex(d)];
    assert p == a * 16 + b && q == p * 16 + c && u == q * 16 + d;
  }

  /** A character beyond U+FFFF written as its two UTF-16 surrogate escapes, as other
      JSON writers do, reads back as that one character. */
  lemma PairEscapeRoundTrip(c: char, tail: string)
    requires c as int >= 0x1_0000
    ensures var v := c as int - 0x1_0000;
      ParseStringChar(UnitEscape(0xD800 + v / 0x400) + (UnitEscape(0xDC00 + v % 0x400) + tail)) == Some((c, tail))
  {
    var v := c as int - 0x1_0000;
    var high, low := 0xD800 + v / 0x400, 0xDC00 + v % 0x400;
    var rest := UnitEscape(low) + tail;
    UnitEscapeValue(high, rest);
    UnitEscapeValue(low, tail);
    assert 0x1_0000 + (high - 0xD800) * 0x400 + (low - 0xDC00) == c as int;
  }

  /** `JSON.parse` reads the escaped pair `\ud83d\ude00` (the texts `HighEscape` and
      `LowEscape` name) as the single character U+1F600. */
  lemma GrinningFacePair()
    ensures ParseStringChar(UnitEscape(0xD83D) + (UnitEscape(0xDE00) + "")) == Some(('\U{1F600}', ""))
  {
    var c := '\U{1F600}';
    assert (c as int - 0x1_0000) / 0x400 == 0x3D && (c as int - 0x1_0000) % 0x400 == 0x200;
    PairEscapeRoundTrip(c, "");
  }

  lemma HighEscape()
    ensures UnitEscape(0xD83D) == "\\ud83d"
  {
    assert LowerHex(13) == 'd' && LowerHex(8) == '8' && LowerHex(3) == '3';
  }

  lemma LowEscape()
    ensures UnitEscape(0xDE00) == "\\ude00"
  {
    assert LowerHex(13) == 'd' && LowerHex(14) == 'e' && LowerHex(0) == '0';
  }

  /** Reading back one written character consumes exactly what was written. */
  lemma EscapeCharRoundTrip(c: char, tail: string)
    ensures ParseStringChar(EscapeChar(c) + tail) == Some((c, tail))
  {
    var s := EscapeChar(c) + tail;
    if c == '"' || c == '\\' || c == '\U{0008}' || c == '\U{000C}' || c == '\n' || c == '\r' || c == '\t' {
      assert s[2..] == tail;
    } else if c < ' ' {
      var hi := c as int / 16;
      var lo := c as int % 16;
      LowerHexValue(hi);
      LowerHexValue(lo);
      assert s[2..6] == ['0', '0', LowerHex(hi), LowerHex(lo)];
      assert Hex4(s[2..6]) == Some(c as int);
      assert s[6..] == tail;
    } else {
      assert s[1..] == tail;
    }
  }

  lemma {:induction false} EscapeRoundTrip(x: string, rest: string)
    ensures ParseStringBody(Escape(x) + "\"" + rest) == Some((x, rest))
    decreases |x|
  {
    if x == [] {
      assert Escape(x) + "\"" + rest == "\"" + rest;
      assert ("\"" + rest)[1..] == rest;
    } else {
      var tail := Escape(x[1..]) + "\"" + rest;
      var s := EscapeChar(x[0]) + tail;
      EscapeShape(x, rest);
      EscapeCharRoundTrip(x[0], tail);
      EscapeRoundTrip(x[1..], rest);
      BodyStep(s, x[0], tail, x[1..], rest);
      assert [x[0]] + x[1..] == x;
    }
  }

  lemma EscapeShape(x: string, rest: string)
    requires x != []
    ensures Escape(x) + "\"" + rest == EscapeChar(x[0]) + (Escape(x[1..]) + "\"" + rest)
  {
  }

  /** One character of a string body, then the rest of the body. */
  lemma BodyStep(s: string, c: char, tail: string, t: string, after: string)
    requires s != [] && s[0] != '"'
    requires ParseStringChar(s) == Some((c, tail))
    requires ParseStringBody(tail) == Some((t, after))
    ensures ParseStringBody(s) == Some(([c] + t, after))
  {
  }

  lemma QuoteRoundTrip(x: string, rest: string)
    ensures ParseString(Quote(x) + rest) == Some((x, rest))
  {
    assert (Quote(x) + rest)[1..] == Escape(x) + "\"" + rest;
    EscapeRoundTrip(x, rest);
  }

  lemma EntryRoundTrip(e: Entry, rest: string)
    requires rest == [] || !IsJsonSpace(rest[0])
    ensures ParseEntry(EntryText(e) + rest) == Some((e, rest))
  {
    var value := BoolText(e.1) + rest;
    var afterKey := ":" + value;
    var s := Quote(e.0) + afterKey;
    EntryTextShape(e, rest);
    assert SkipSpace(s) == s by { assert s[0] == '"'; }
    QuoteRoundTrip(e.0, afterKey);
    assert SkipSpace(afterKey) == afterKey by { assert afterKey[0] == ':'; }
    assert afterKey[1..] == value;
    assert SkipSpace(value) == value by { assert value[0] == 't' || value[0] == 'f'; }
    BoolRoundTrip(e.1, rest);
  }

  lemma EntryTextShape(e: Entry, rest: string)
    ensures EntryText(e) + rest == Quote(e.0) + (":" + (BoolText(e.1) + rest))
  {
  }

  lemma BoolRoundTrip(b: bool, rest: string)
    ensures ParseBool(BoolText(b) + rest) == Some((b, rest))
  {
    var t := BoolText(b) + rest;
    if b {
      assert t[4..] == rest;
    } else {
      assert !("true" <= t) by { assert t[0] == 'f'; }
      assert t[5..] == rest;
    }
  }

  /** The last property: the entry, then the closing brace. */
  lemma MembersLast(e: Entry, acc: Checked, rest: string)
    ensures ParseMembers(EntryText(e) + "}" + rest, acc) == Some((Set(acc, e.0, e.1), rest))
  {
    assert EntryText(e) + "}" + rest == EntryText(e) + ("}" + rest);
    EntryRoundTrip(e, "}" + rest);
    assert ("}" + rest)[1..] == rest;
  }

  /** A property followed by a comma: parsing carries on after the comma. */
  lemma MembersMore(e: Entry, acc: Checked, tail: string)
    ensures ParseMembers(EntryText(e) + "," + tail, acc) == ParseMembers(tail, Set(acc, e.0, e.1))
  {
    assert EntryText(e) + "," + tail == EntryText(e) + ("," + tail);
    EntryRoundTrip(e, "," + tail);
    assert ("," + tail)[1..] == tail;
  }

  /** Each property of `m` is new when it is assigned after `acc` and the ones before it. */
  predicate FreshKeys(acc: Checked, m: Checked)
    decreases |m|
  {
    m == [] || (Lookup(acc, m[0].0).None? && FreshKeys(acc + [m[0]], m[1..]))
  }

  lemma {:induction false} DistinctFresh(acc: Checked, m: Checked)
    requires DistinctKeys(acc + m)
    ensures FreshKeys(acc, m)
    decreases |m|
  {
    if m != [] {
      assert (acc + m)[|acc|] == m[0];
      assert Lookup(acc, m[0].0).None? by {
        forall i | 0 <= i < |acc| ensures acc[i].0 != m[0].0 {
          assert (acc + m)[i] == acc[i];
        }
      }
      assert (acc + [m[0]]) + m[1..] == acc + m;
      DistinctFresh(acc + [m[0]], m[1..]);
    }
  }

  /** The text of two or more properties: the first, a comma, the others. */
  lemma MembersSplit(m: Checked, rest: string)
    requires |m| > 1
    ensures Members(m) + "}" + rest == EntryText(m[0]) + "," + (Members(m[1..]) + "}" + rest)
  {
    var a, b := EntryText(m[0]), Members(m[1..]);
    assert Members(m) == a + ("," + b);
    Regroup(a, b, rest);
  }

  lemma Regroup(a: string, b: string, rest: string)
    ensures a + ("," + b) + "}" + rest == a + "," + (b + "}" + rest)
  {
  }

  /** One step of the properties: the first is assigned, the others follow the comma. */
  lemma MembersHead(m: Checked, acc: Checked, rest: string)
    requires |m| > 1
    requires Set(acc, m[0].0, m[0].1) == acc + [m[0]]
    ensures ParseMembers(Members(m) + "}" + rest, acc) == ParseMembers(Members(m[1..]) + "}" + rest, acc + [m[0]])
  {
    MembersSplit(m, rest);
    MembersMore(m[0], acc, Members(m[1..]) + "}" + rest);
  }

  lemma MembersSingle(m: Checked, acc: Checked, rest: string)
    requires |m| == 1 && Set(acc, m[0].0, m[0].1) == acc + [m[0]]
    ensures ParseMembers(Members(m) + "}" + rest, acc) == Some((acc + m, rest))
  {
    assert Members(m) == EntryText(m[0]);
    MembersLast(m[0], acc, rest);
    assert acc + m == acc + [m[0]];
  }

  lemma AppendFirst(acc: Checked, m: Checked)
    requires m != []
    ensures (acc + [m[0]]) + m[1..] == acc + m
  {
  }

  lemma {:induction false} MembersRoundTrip(m: Checked, acc: Checked, rest: string)
    requires m != [] && FreshKeys(acc, m)
    ensures ParseMembers(Members(m) + "}" + rest, acc) == Some((acc + m, rest))
    decreases |m|
  {
    if |m| == 1 {
      MembersSingle(m, acc, rest);
    } else {
      MembersHead(m, acc, rest);
      MembersRoundTrip(m[1..], acc + [m[0]], rest);
      AppendFirst(acc, m);
    }
  }

  /** What `JSON.stringify` writes, `JSON.parse` reads back as the same object. */
  lemma StringifyRoundTrip(m: Checked)
    requires DistinctKeys(m)
    ensures Parse(Stringify(m)) == Some(m)
  {
    if m == [] {
      EmptyObject();
    } else {
      EmptyPrefix(m);
      DistinctFresh([], m);
      MembersRoundTrip(m, [], []);
      MembersStart(m);
      ObjectText(Members(m));
      ParseWhole(Stringify(m), m);
    }
  }

  lemma EmptyObject()
    ensures Parse(Stringify([])) == Some([])
  {
    var s := "{}";
    assert Stringify([]) == s;
    assert SkipSpace(s) == s;
    assert s[1..] == "}";
    assert SkipSpace("}") == "}" && "}"[1..] == [];
    assert ParseObject(s) == Some(([], []));
  }

  /** An object followed by nothing is the whole text's value. */
  lemma ParseWhole(s: string, m: Checked)
    requires ParseObject(s) == Some((m, []))
    ensures Parse(s) == Some(m)
  {
  }

  lemma EmptyPrefix(m: Checked)
    requires DistinctKeys(m)
    ensures DistinctKeys([] + m) && [] + m == m
  {
    assert [] + m == m;
  }

  lemma MembersStart(m: Checked)
    requires m != []
    ensures Members(m) != [] && Members(m)[0] == '"'
  {
    assert Members(m)[0] == EntryText(m[0])[0] == Quote(m[0].0)[0];
  }

  /** Braces around properties: the object is what the properties parse to. */
  lemma ObjectText(text: string)
    requires text != [] && text[0] == '"'
    ensures ParseObject("{" + text + "}") == ParseMembers(text + "}" + [], [])
  {
    var s := "{" + text + "}";
    assert s[1..] == text + "}" + [];
    assert SkipSpace(s) == s;
    assert SkipSpace(s[1..]) == s[1..];
  }
}
