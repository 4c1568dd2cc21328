/** JSON values as the query builder sees them: what Express's query-string
    parser produces (strings and nested objects) plus the booleans of the
    conditions the model adds itself. `Serialize` is `JSON.stringify`;
    `Parse` is `JSON.parse` on the grammar `Serialize` produces (no white
    space, numbers, arrays or null). Objects are association lists, so the
    order of properties is kept as JavaScript keeps it. */
module Json {
  import opened Wrappers
  import opened Strings
  import opened Seqs

  datatype Value = Str(s: string) | Bool(b: bool) | Obj(fields: seq<Field>)
  datatype Field = Field(key: string, val: Value)

  // ---------------------------------------------------------------------------
  // Objects as association lists

  /** `obj[key]`: the value of the first property named `key`. */
  function Lookup(fs: seq<Field>, key: string): Option<Value> {
    if fs == [] then None else if fs[0].key == key then Some(fs[0].val) else Lookup(fs[1..], key)
  }

  function Keys(fs: seq<Field>): set<string> {
    if fs == [] then {} else {fs[0].key} + Keys(fs[1..])
  }

  /** `delete obj[key]`. */
  function Delete(fs: seq<Field>, key: string): (r: seq<Field>)
    ensures Keys(r) == Keys(fs) - {key}
    ensures |r| <= |fs|
  {
    if fs == [] then []
    else if fs[0].key == key then Delete(fs[1..], key)
    else [fs[0]] + Delete(fs[1..], key)
  }

  /** `obj[key] = v`: replaces the value in place when the property exists,
      otherwise appends a new last property. */
  function SetField(fs: seq<Field>, key: string, v: Value): (r: seq<Field>)
    ensures Keys(r) == Keys(fs) + {key}
  {
    if fs == [] then [Field(key, v)]
    else if fs[0].key == key then [Field(key, v)] + fs[1..]
    else [fs[0]] + SetField(fs[1..], key, v)
  }

  lemma {:induction false} LookupSetField(fs: seq<Field>, key: string, v: Value, k: string)
    ensures Lookup(SetField(fs, key, v), k) == if k == key then Some(v) else Lookup(fs, k)
  {
    if fs != [] && fs[0].key != key {
      LookupSetField(fs[1..], key, v, k);
    }
  }

  lemma {:induction false} LookupDelete(fs: seq<Field>, key: string, k: string)
    ensures Lookup(Delete(fs, key), k) == if k == key then None else Lookup(fs, k)
  {
    if fs != [] {
      LookupDelete(fs[1..], key, k);
    }
  }

  /** Deleting a key drops whatever was just assigned to it. */
  lemma {:induction false} DeleteSetFieldSame(fs: seq<Field>, key: string, v: Value)
    ensures Delete(SetField(fs, key, v), key) == Delete(fs, key)
  {
    if fs != [] && fs[0].key != key {
      DeleteSetFieldSame(fs[1..], key, v);
    }
  }

  /** Deleting one key and assigning another commute. */
  lemma {:induction false} DeleteSetFieldOther(fs: seq<Field>, key: string, v: Value, other: string)
    requires other != key
    ensures Delete(SetField(fs, key, v), other) == SetField(Delete(fs, other), key, v)
  {
    if fs != [] {
      DeleteSetFieldOther(fs[1..], key, v, other);
      if fs[0].key == key {
        assert SetField(fs, key, v)[1..] == fs[1..];
      }
    }
  }

  /** Assigns `fs` property by property onto `acc`, in order. */
  function Assign(acc: seq<Field>, fs: seq<Field>): seq<Field>
    decreases fs
  {
    if fs == [] then acc else Assign(SetField(acc, fs[0].key, fs[0].val), fs[1..])
  }

  lemma {:induction false} AssignKeys(acc: seq<Field>, fs: seq<Field>)
    ensures Keys(Assign(acc, fs)) == Keys(acc) + Keys(fs)
    decreases fs
  {
    if fs != [] {
      AssignKeys(SetField(acc, fs[0].key, fs[0].val), fs[1..]);
    }
  }

  /** The object JavaScript would build from an association list that may
      repeat a key, at every level. */
  function Normalize(v: Value): Value {
    match v
    case Obj(fs) => Obj(Assign([], NormalizeFields(fs)))
    case _ => v
  }

  function NormalizeFields(fs: seq<Field>): seq<Field> {
    if fs == [] then [] else [Field(fs[0].key, Normalize(fs[0].val))] + NormalizeFields(fs[1..])
  }

  lemma {:induction false} NormalizeFieldsKeys(fs: seq<Field>)
    ensures Keys(NormalizeFields(fs)) == Keys(fs)
  {
    if fs != [] {
      NormalizeFieldsKeys(fs[1..]);
    }
  }

  predicate DistinctKeys(fs: seq<Field>) {
    fs == [] || (fs[0].key !in Keys(fs[1..]) && DistinctKeys(fs[1..]))
  }

  /** A value JavaScript can hold: no object repeats a key. */
  predicate WellFormed(v: Value) {
    match v
    case Obj(fs) => FieldsWellFormed(fs)
    case _ => true
  }

  predicate FieldsWellFormed(fs: seq<Field>) {
    fs == [] || (fs[0].key !in Keys(fs[1..]) && WellFormed(fs[0].val) && FieldsWellFormed(fs[1..]))
  }

  lemma {:induction false} KeysAppend(a: seq<Field>, b: seq<Field>)
    ensures Keys(a + b) == Keys(a) + Keys(b)
  {
    if a != [] {
      assert (a + b)[1..] == a[1..] + b;
      KeysAppend(a[1..], b);
    } else {
      assert a + b == b;
    }
  }

  lemma {:induction false} SetFieldNew(fs: seq<Field>, key: string, v: Value)
    requires key !in Keys(fs)
    ensures SetField(fs, key, v) == fs + [Field(key, v)]
  {
    if fs != [] {
      SetFieldNew(fs[1..], key, v);
      assert [fs[0]] + (fs[1..] + [Field(key, v)]) == fs + [Field(key, v)];
    }
  }

  /** Assigning properties whose keys are new and distinct appends them. */
  lemma {:induction false} AssignFresh(acc: seq<Field>, fs: seq<Field>)
    requires DistinctKeys(fs) && Keys(acc) !! Keys(fs)
    ensures Assign(acc, fs) == acc + fs
    decreases fs
  {
    if fs == [] {
      assert acc + fs == acc;
    } else {
      AssignFreshStep(acc, fs);
      AssignFresh(acc + [fs[0]], fs[1..]);
      AppendAssoc(acc, [fs[0]], fs[1..]);
      assert [fs[0]] + fs[1..] == fs;
    }
  }

  /** Assigning the first of fresh, distinct properties appends it and
      leaves the rest fresh. */
  lemma AssignFreshStep(acc: seq<Field>, fs: seq<Field>)
    requires fs != [] && DistinctKeys(fs) && Keys(acc) !! Keys(fs)
    ensures Assign(acc, fs) == Assign(acc + [fs[0]], fs[1..])
    ensures DistinctKeys(fs[1..]) && Keys(acc + [fs[0]]) !! Keys(fs[1..])
  {
    var f := fs[0];
    SetFieldNew(acc, f.key, f.val);
    KeysAppend(acc, [f]);
    assert Keys([f]) == {f.key};
  }

  /** A value with no repeated keys is its own normal form. */
  lemma {:induction false} NormalizeWellFormed(v: Value)
    requires WellFormed(v)
    ensures Normalize(v) == v
    decreases v, 1
  {
    match v
    case Obj(fs) =>
      NormalizeFieldsWellFormed(fs);
      AssignFresh([], fs);
      assert [] + fs == fs;
    case _ =>
  }

  lemma {:induction false} NormalizeFieldsWellFormed(fs: seq<Field>)
    requires FieldsWellFormed(fs)
    ensures NormalizeFields(fs) == fs && DistinctKeys(fs)
    decreases fs, 0
  {
    if fs != [] {
      NormalizeWellFormed(fs[0].val);
      NormalizeFieldsWellFormed(fs[1..]);
      assert [fs[0]] + fs[1..] == fs;
    }
  }

  // ---------------------------------------------------------------------------
  // JSON.stringify

  function HexDigit(d: nat): char
    requires d < 16
  {
    "0123456789abcdef"[d]
  }

  /** How JSON.stringify writes one character inside a string literal. */
  function EscapeChar(c: char): string {
    if c == '"' then "\\\""
    else if c == '\\' then "\\\\"
    else if c == '\U{0008}' then "\\b"
    else if c == '\t' then "\\t"
    else if c == '\n' then "\\n"
    else if c == '\U{000C}' then "\\f"
    else if c == '\r' then "\\r"
    else if c < ' ' then "\\u00" + [HexDigit(c as int / 16), HexDigit(c as int % 16)]
    else [c]
  }

  function Escape(s: string): string {
    if s == [] then [] else EscapeChar(s[0]) + Escape(s[1..])
  }

  function Quote(s: string): string {
    "\"" + Escape(s) + "\""
  }

  function Serialize(v: Value): string {
    match v
    case Str(s) => Quote(s)
    case Bool(b) => if b then "true" else "false"
    case Obj(fs) => "{" + SerializeFields(fs) + "}"
  }

  /** The members of an object, separated by commas. */
  function SerializeFields(fs: seq<Field>): string {
    if fs == [] then []
    else
      var member := Quote(fs[0].key) + ":" + Serialize(fs[0].val);
      if |fs| == 1 then member else member + "," + SerializeFields(fs[1..])
  }

  lemma {:induction false} EscapeAppend(a: string, b: string)
    ensures Escape(a + b) == Escape(a) + Escape(b)
  {
    if a != [] {
      assert (a + b)[1..] == a[1..] + b;
      EscapeAppend(a[1..], b);
    } else {
      assert a + b == b;
    }
  }

  // ---------------------------------------------------------------------------
  // JSON.parse

  predicate IsHexDigit(c: char) {
    '0' <= c <= '9' || 'a' <= c <= 'f' || 'A' <= c <= 'F'
  }

  function HexValue(c: char): (r: nat)
    requires IsHexDigit(c)
    ensures r < 16
  {
    if '0' <= c <= '9' then (c as int - '0' as int) as nat
    else if 'a' <= c <= 'f' then (c as int - 'a' as int + 10) as nat
    else (c as int - 'A' as int + 10) as nat
  }

  /** The character an escape sequence stands for, and how many characters
      after the backslash it occupies. A `\u` escape naming a lone surrogate
      has no character and is refused. */
  function Unescape(s: string): Option<(char, nat)> {
    if s == [] then None
    else if s[0] == '"' || s[0] == '\\' || s[0] == '/' then Some((s[0], 1))
    else if s[0] == 'b' then Some(('\U{0008}', 1))
    else if s[0] == 't' then Some(('\t', 1))
    else if s[0] == 'n' then Some(('\n', 1))
    else if s[0] == 'f' then Some(('\U{000C}', 1))
    else if s[0] == 'r' then Some(('\r', 1))
    else if s[0] == 'u' && |s| >= 5 && IsHexDigit(s[1]) && IsHexDigit(s[2]) && IsHexDigit(s[3]) && IsHexDigit(s[4]) then
      var code := HexValue(s[1]) * 4096 + HexValue(s[2]) * 256 + HexValue(s[3]) * 16 + HexValue(s[4]);
      if code < 0xD800 || 0xE000 <= code then Some((code as char, 5)) else None
    else None
  }

  /** The body of a string literal up to its closing quote (the opening quote
      already consumed), and the text after it. */
  function ParseString(s: string): (r: Option<(string, string)>)
    ensures r.Some? ==> |r.value.1| < |s|
    decreases |s|
  {
    if s == [] then None
    else if s[0] == '"' then Some(([], s[1..]))
    else if s[0] == '\\' then
      match Unescape(s[1..])
      case None => None
      case Some(e) =>
        if 1 + e.1 > |s| then None
        else
          var p :- ParseString(s[1 + e.1..]);
          Some(([e.0] + p.0, p.1))
    else if s[0] < ' ' then None
    else
      var p :- ParseString(s[1..]);
      Some(([s[0]] + p.0, p.1))
  }

  function ParseValue(s: string): (r: Option<(Value, string)>)
    ensures r.Some? ==> |r.value.1| < |s|
    decreases |s|, 2
  {
    if s == [] then None
    else if s[0] == '"' then
      var p :- ParseString(s[1..]);
      Some((Str(p.0), p.1))
    else if s[0] == '{' then ParseObject(s[1..])
    else if StartsWith(s, "true") then Some((Bool(true), s[4..]))
    else if StartsWith(s, "false") then Some((Bool(false), s[5..]))
    else None
  }

  /** An object after its opening brace. Like `JSON.parse`, a repeated key
      overwrites the earlier value and keeps the earlier position. */
  function ParseObject(s: string): (r: Option<(Value, string)>)
    ensures r.Some? ==> |r.value.1| < |s|
    decreases |s|, 1
  {
    if s != [] && s[0] == '}' then Some((Obj([]), s[1..]))
    else
      var p :- ParseMembers(s);
      Some((Obj(Assign([], p.0)), p.1))
  }

  /** One or more members and the closing brace. */
  function ParseMembers(s: string): (r: Option<(seq<Field>, string)>)
    ensures r.Some? ==> |r.value.1| < |s|
    decreases |s|, 0
  {
    if s == [] || s[0] != '"' then None
    else
      var k :- ParseString(s[1..]);
      if k.1 == [] || k.1[0] != ':' then None
      else
        var v :- ParseValue(k.1[1..]);
        if v.1 == [] then None
        else if v.1[0] == ',' then
          var more :- ParseMembers(v.1[1..]);
          Some(([Field(k.0, v.0)] + more.0, more.1))
        else if v.1[0] == '}' then Some(([Field(k.0, v.0)], v.1[1..]))
        else None
  }

  /** `JSON.parse(s)`: a value that takes up the whole text. */
  function Parse(s: string): Option<Value> {
    var p :- ParseValue(s);
    if p.1 == [] then Some(p.0) else None
  }

  // ---------------------------------------------------------------------------
  // Round trip

  lemma EscapeCharParses(c: char, rest: string)
    ensures var e := EscapeChar(c);
      if e == [c] then c != '"' && c != '\\' && c >= ' '
      else |e| >= 2 && e[0] == '\\' && Unescape(e[1..] + rest) == Some((c, |e| - 1))
  {
    if c < ' ' && c != '\U{0008}' && c != '\t' && c != '\n' && c != '\U{000C}' && c != '\r' {
      EscapeControlParses(c, rest);
    }
  }

  /** A control character without a short escape comes back from `\u00XY`. */
  lemma EscapeControlParses(c: char, rest: string)
    requires c < ' ' && c != '\U{0008}' && c != '\t' && c != '\n' && c != '\U{000C}' && c != '\r'
    ensures EscapeChar(c) == "\\u00" + [HexDigit(c as int / 16), HexDigit(c as int % 16)]
    ensures Unescape(EscapeChar(c)[1..] + rest) == Some((c, 5))
  {
    var hi, lo := c as int / 16, c as int % 16;
    var t := EscapeChar(c)[1..] + rest;
    assert t[0] == 'u' && t[1] == '0' && t[2] == '0' && t[3] == HexDigit(hi) && t[4] == HexDigit(lo);
    HexDigitValue(hi);
    HexDigitValue(lo);
  }

  lemma HexDigitValue(d: nat)
    requires d < 16
    ensures IsHexDigit(HexDigit(d)) && HexValue(HexDigit(d)) == d
  {
  }

  lemma {:induction false} ParseEscaped(s: string, rest: string)
    ensures ParseString(Escape(s) + "\"" + rest) == Some((s, rest))
  {
    if s == [] {
      assert Escape(s) + "\"" + rest == "\"" + rest;
    } else {
      var tail := Escape(s[1..]) + "\"" + rest;
      assert Escape(s) + "\"" + rest == EscapeChar(s[0]) + tail;
      ParseEscaped(s[1..], rest);
      ParseEscapeChar(s[0], tail);
      assert [s[0]] + s[1..] == s;
    }
  }

  /** Parsing past one escaped character. */
  lemma ParseEscapeChar(c: char, tail: string)
    requires ParseString(tail).Some?
    ensures ParseString(EscapeChar(c) + tail)
         == Some(([c] + ParseString(tail).value.0, ParseString(tail).value.1))
  {
    var e := EscapeChar(c);
    var t := e + tail;
    EscapeCharParses(c, tail);
    if e == [c] {
      assert t[0] == c;
      assert t[1..] == tail;
    } else {
      assert t[1..] == e[1..] + tail;
      assert t[1 + (|e| - 1)..] == tail;
    }
  }

  lemma {:induction false} ParseSerialized(v: Value, rest: string)
    ensures ParseValue(Serialize(v) + rest) == Some((Normalize(v), rest))
    decreases v, 1
  {
    match v
    case Str(s) => ParseSerializedStr(s, rest);
    case Bool(b) => ParseSerializedBool(b, rest);
    case Obj(fs) =>
      if fs != [] {
        ParseFieldsSerialized(fs, rest);
      }
      ParseSerializedObj(fs, rest);
  }

  lemma ParseSerializedStr(s: string, rest: string)
    ensures ParseValue(Serialize(Str(s)) + rest) == Some((Str(s), rest))
  {
    var e := Escape(s);
    var body := e + "\"" + rest;
    AppendAssoc("\"" + e, "\"", rest);
    AppendAssoc("\"", e, "\"" + rest);
    AppendAssoc(e, "\"", rest);
    ParseEscaped(s, rest);
    ParseValueStrStep(body, s, rest);
  }

  lemma ParseValueStrStep(body: string, t: string, r: string)
    requires ParseString(body) == Some((t, r))
    ensures ParseValue("\"" + body) == Some((Str(t), r))
  {
    ConsAppend('"', body);
  }

  lemma ParseSerializedBool(b: bool, rest: string)
    ensures ParseValue(Serialize(Bool(b)) + rest) == Some((Bool(b), rest))
  {
    if b {
      SliceOfAppend("true", 4, rest);
      TakeAll("true");
    } else {
      var t := "false" + rest;
      SliceOfAppend("false", 5, rest);
      TakeAll("false");
      assert t[0] == 'f';
    }
  }

  lemma ParseSerializedObj(fs: seq<Field>, rest: string)
    requires fs == [] || ParseMembers(SerializeFields(fs) + "}" + rest) == Some((NormalizeFields(fs), rest))
    ensures ParseValue(Serialize(Obj(fs)) + rest) == Some((Normalize(Obj(fs)), rest))
  {
    var sf := SerializeFields(fs);
    var body := sf + "}" + rest;
    AppendAssoc("{" + sf, "}", rest);
    AppendAssoc("{", sf, "}" + rest);
    AppendAssoc(sf, "}", rest);
    ParseValueObjStep(body);
    if fs == [] {
      assert body == "}" + rest;
      ParseObjectEmpty(rest);
    } else {
      ParseObjectMembers(body, NormalizeFields(fs), rest);
    }
  }

  lemma ParseValueObjStep(body: string)
    ensures ParseValue("{" + body) == ParseObject(body)
  {
    ConsAppend('{', body);
  }

  lemma ParseObjectEmpty(rest: string)
    ensures ParseObject("}" + rest) == Some((Obj([]), rest))
  {
    ConsAppend('}', rest);
  }

  lemma ParseObjectMembers(body: string, fs: seq<Field>, rest: string)
    requires ParseMembers(body) == Some((fs, rest))
    ensures ParseObject(body) == Some((Obj(Assign([], fs)), rest))
  {
  }

  lemma {:induction false} ParseFieldsSerialized(fs: seq<Field>, rest: string)
    requires fs != []
    ensures ParseMembers(SerializeFields(fs) + "}" + rest) == Some((NormalizeFields(fs), rest))
    decreases fs, 0
  {
    ParseSerialized(fs[0].val, MoreMembers(fs) + "}" + rest);
    if |fs| > 1 {
      ParseFieldsSerialized(fs[1..], rest);
      ParseFirstOfMany(fs, rest);
    } else {
      ParseOnlyField(fs, rest);
    }
  }

  lemma ParseOnlyField(fs: seq<Field>, rest: string)
    requires |fs| == 1
    requires ParseValue(Serialize(fs[0].val) + (MoreMembers(fs) + "}" + rest))
          == Some((Normalize(fs[0].val), MoreMembers(fs) + "}" + rest))
    ensures ParseMembers(SerializeFields(fs) + "}" + rest) == Some((NormalizeFields(fs), rest))
  {
    var f := fs[0];
    var after := MoreMembers(fs) + "}" + rest;
    SerializeFieldsFirst(fs, rest);
    assert MoreMembers(fs) == [];
    assert after == "}" + rest;
    ParseLastMember(f.key, f.val, Normalize(f.val), rest);
    assert fs[1..] == [];
    assert NormalizeFields(fs) == [Field(f.key, Normalize(f.val))] + [];
    assert NormalizeFields(fs) == [Field(f.key, Normalize(f.val))];
  }

  lemma ParseFirstOfMany(fs: seq<Field>, rest: string)
    requires |fs| > 1
    requires ParseValue(Serialize(fs[0].val) + (MoreMembers(fs) + "}" + rest))
          == Some((Normalize(fs[0].val), MoreMembers(fs) + "}" + rest))
    requires ParseMembers(SerializeFields(fs[1..]) + "}" + rest) == Some((NormalizeFields(fs[1..]), rest))
    ensures ParseMembers(SerializeFields(fs) + "}" + rest) == Some((NormalizeFields(fs), rest))
  {
    var f := fs[0];
    var after := MoreMembers(fs) + "}" + rest;
    var next := SerializeFields(fs[1..]) + "}" + rest;
    SerializeFieldsFirst(fs, rest);
    assert MoreMembers(fs) == "," + SerializeFields(fs[1..]);
    CommaAssoc(SerializeFields(fs[1..]), rest);
    assert after == "," + next;
    ParseNextMember(f.key, f.val, Normalize(f.val), next, NormalizeFields(fs[1..]), rest);
    assert NormalizeFields(fs) == [Field(f.key, Normalize(f.val))] + NormalizeFields(fs[1..]);
  }

  lemma ParseLastMember(key: string, v: Value, nv: Value, rest: string)
    requires ParseValue(Serialize(v) + ("}" + rest)) == Some((nv, "}" + rest))
    ensures ParseMembers("\"" + (Escape(key) + "\"" + (":" + (Serialize(v) + ("}" + rest)))))
         == Some(([Field(key, nv)], rest))
  {
    ParseMemberThen(key, v, nv, "}" + rest);
    assert ("}" + rest)[1..] == rest;
  }

  lemma ParseNextMember(key: string, v: Value, nv: Value, next: string, nfs: seq<Field>, rest: string)
    requires ParseValue(Serialize(v) + ("," + next)) == Some((nv, "," + next))
    requires ParseMembers(next) == Some((nfs, rest))
    ensures ParseMembers("\"" + (Escape(key) + "\"" + (":" + (Serialize(v) + ("," + next)))))
         == Some(([Field(key, nv)] + nfs, rest))
  {
    ParseMemberThen(key, v, nv, "," + next);
    assert ("," + next)[1..] == next;
  }

  /** What follows the first member of a serialized member list. */
  function MoreMembers(fs: seq<Field>): string
    requires fs != []
  {
    if |fs| == 1 then [] else "," + SerializeFields(fs[1..])
  }

  /** The first member of a serialized member list, split off. */
  lemma SerializeFieldsFirst(fs: seq<Field>, rest: string)
    requires fs != []
    ensures SerializeFields(fs) + "}" + rest
         == "\"" + (Escape(fs[0].key) + "\"" + (":" + (Serialize(fs[0].val) + (MoreMembers(fs) + "}" + rest))))
  {
    var ek, sv := Escape(fs[0].key), Serialize(fs[0].val);
    assert SerializeFields(fs) == "\"" + ek + "\"" + ":" + sv + MoreMembers(fs);
    SplitMember(ek, sv, MoreMembers(fs), rest);
  }

  /** Parsing past one member, up to the comma or brace that follows it. */
  lemma ParseMemberThen(key: string, v: Value, nv: Value, after: string)
    requires ParseValue(Serialize(v) + after) == Some((nv, after))
    requires after != [] && (after[0] == ',' || after[0] == '}')
    ensures ParseMembers("\"" + (Escape(key) + "\"" + (":" + (Serialize(v) + after))))
         == if after[0] == '}' then Some(([Field(key, nv)], after[1..]))
            else match ParseMembers(after[1..])
              case None => None
              case Some(m) => Some(([Field(key, nv)] + m.0, m.1))
  {
    var valuePart := Serialize(v) + after;
    var keyPart := ":" + valuePart;
    var body := Escape(key) + "\"" + keyPart;
    ParseEscaped(key, keyPart);
    ConsAppend('"', body);
    ConsAppend(':', valuePart);
    ParseMembersStep("\"" + body, key, keyPart, nv, after);
  }

  /** One unfolding of `ParseMembers` past a key and its value. */
  lemma ParseMembersStep(s: string, key: string, keyPart: string, nv: Value, after: string)
    requires s != [] && s[0] == '"' && ParseString(s[1..]) == Some((key, keyPart))
    requires keyPart != [] && keyPart[0] == ':' && ParseValue(keyPart[1..]) == Some((nv, after))
    requires after != [] && (after[0] == ',' || after[0] == '}')
    ensures ParseMembers(s)
         == if after[0] == '}' then Some(([Field(key, nv)], after[1..]))
            else match ParseMembers(after[1..])
              case None => None
              case Some(m) => Some(([Field(key, nv)] + m.0, m.1))
  {
  }

  lemma CommaAssoc(more: string, rest: string)
    ensures "," + more + "}" + rest == "," + (more + "}" + rest)
  {
  }

  lemma SplitMember(ek: string, sv: string, more: string, rest: string)
    ensures "\"" + ek + "\"" + ":" + sv + more + "}" + rest
         == "\"" + (ek + "\"" + (":" + (sv + (more + "}" + rest))))
  {
  }

  /** `JSON.parse(JSON.stringify(v))` builds the object JavaScript would
      build from `v`. */
  lemma ParseOfSerialize(v: Value)
    ensures Parse(Serialize(v)) == Some(Normalize(v))
  {
    ParseSerialized(v, []);
    assert Serialize(v) + [] == Serialize(v);
  }

  /** ... and so gives back any value JavaScript can hold. */
  lemma ParseOfSerializeWellFormed(v: Value)
    requires WellFormed(v)
    ensures Parse(Serialize(v)) == Some(v)
  {
    ParseOfSerialize(v);
    NormalizeWellFormed(v);
  }
}
