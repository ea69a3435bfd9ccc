/** The dotenv serializer and the digest preimage built from it. */
module Environment {
  import opened Wrappers

  const NUL: char := '\0'

  datatype Serialized = Invalid | Text(text: string)

  // ---------------------------------------------------------------- string order

  predicate Less(a: string, b: string) {
    if b == [] then false
    else if a == [] then true
    else if a[0] != b[0] then a[0] < b[0]
    else Less(a[1..], b[1..])
  }

  lemma {:induction false} LessTotal(a: string, b: string)
    ensures Less(a, b) || Less(b, a) || a == b
  {
    if a != [] && b != [] && a[0] == b[0] {
      LessTotal(a[1..], b[1..]);
      assert a[1..] == b[1..] ==> a == [a[0]] + a[1..] == [b[0]] + b[1..] == b;
    }
  }

  lemma {:induction false} LessTransitive(a: string, b: string, c: string)
    requires Less(a, b) && Less(b, c)
    ensures Less(a, c)
  {
    if a != [] && a[0] == b[0] == c[0] {
      LessTransitive(a[1..], b[1..], c[1..]);
    }
  }

  lemma {:induction false} LessIrreflexive(a: string)
    ensures !Less(a, a)
  {
    if a != [] {
      LessIrreflexive(a[1..]);
    }
  }

  predicate Increasing(keys: seq<string>) {
    forall i, j :: 0 <= i < j < |keys| ==> Less(keys[i], keys[j])
  }

  /** `keys` is the sorted list of the keys of `values`. */
  predicate SortedKeys(keys: seq<string>, values: map<string, string>) {
    && Increasing(keys)
    && (forall i :: 0 <= i < |keys| ==> keys[i] in values)
    && forall k :: k in values ==> k in keys
  }

  /** Insertion of one key into a sorted list. */
  function Insert(key: string, keys: seq<string>): (r: seq<string>)
    requires Increasing(keys) && key !in keys
    ensures Increasing(r) && |r| == |keys| + 1
    ensures forall k :: k in r <==> k == key || k in keys
  {
    if keys == [] then [key]
    else if Less(key, keys[0]) then
      InsertFirst(key, keys);
      [key] + keys
    else
      LessTotal(key, keys[0]);
      var rest := Insert(key, keys[1..]);
      InsertLater(key, keys, rest);
      [keys[0]] + rest
  }

  lemma InsertFirst(key: string, keys: seq<string>)
    requires Increasing(keys) && keys != [] && Less(key, keys[0])
    ensures Increasing([key] + keys)
  {
    forall j | 0 <= j < |keys| ensures Less(key, keys[j]) {
      if j != 0 {
        LessTransitive(key, keys[0], keys[j]);
      }
    }
  }

  lemma InsertLater(key: string, keys: seq<string>, rest: seq<string>)
    requires Increasing(keys) && keys != [] && Less(keys[0], key)
    requires Increasing(rest) && forall k :: k in rest <==> k == key || k in keys[1..]
    ensures Increasing([keys[0]] + rest)
    ensures forall k :: k in [keys[0]] + rest <==> k == key || k in keys
  {
    assert keys == [keys[0]] + keys[1..];
    forall j | 0 <= j < |rest| ensures Less(keys[0], rest[j]) {
      assert rest[j] in rest;
    }
  }

  /** Two sorted lists with the same members are the same list. */
  lemma {:induction false} IncreasingUnique(a: seq<string>, b: seq<string>)
    requires Increasing(a) && Increasing(b)
    requires forall k :: k in a <==> k in b
    ensures a == b
  {
    assert a != [] ==> a[0] in a;
    assert b != [] ==> b[0] in b;
    if a != [] && b != [] {
      HeadsAgree(a, b);
      var a1, b1 := a[1..], b[1..];
      assert a == [a[0]] + a1 && b == [b[0]] + b1;
      HeadNotInTail(a);
      HeadNotInTail(b);
      assert forall k :: k in a <==> k == a[0] || k in a1;
      assert forall k :: k in b <==> k == b[0] || k in b1;
      IncreasingUnique(a1, b1);
    }
  }

  lemma HeadNotInTail(a: seq<string>)
    requires Increasing(a) && a != []
    ensures a[0] !in a[1..]
  {
    LessIrreflexive(a[0]);
  }

  lemma HeadsAgree(a: seq<string>, b: seq<string>)
    requires Increasing(a) && Increasing(b) && a != [] && b != []
    requires forall k :: k in a <==> k in b
    ensures a[0] == b[0]
  {
    assert a[0] in b && b[0] in a;
    var i :| 0 <= i < |b| && b[i] == a[0];
    var j :| 0 <= j < |a| && a[j] == b[0];
    if i != 0 && j != 0 {
      LessTransitive(a[0], b[0], a[0]);
      LessIrreflexive(a[0]);
    }
  }

  // ---------------------------------------------------------------- the text

  predicate KeyStart(c: char) {
    'A' <= c <= 'Z' || 'a' <= c <= 'z' || c == '_'
  }

  predicate KeyChar(c: char) {
    KeyStart(c) || '0' <= c <= '9'
  }

  predicate ValidKey(key: string) {
    && key != []
    && KeyStart(key[0])
    && forall i :: 0 <= i < |key| ==> KeyChar(key[i])
  }

  /** A key is a letter or underscore, then letters, digits and underscores. */
  lemma KeysAreExact(key: string)
    ensures ValidKey(key) <==>
            && key != "" && !('0' <= key[0] <= '9')
            && forall i :: 0 <= i < |key| ==>
                 'A' <= key[i] <= 'Z' || 'a' <= key[i] <= 'z' || '0' <= key[i] <= '9' || key[i] == '_'
  {
    if key != "" {
      assert KeyStart(key[0]) <==> KeyChar(key[0]) && !('0' <= key[0] <= '9');
    }
  }

  predicate NulFree(s: string) {
    NUL !in s
  }

  predicate ValidEnvironment(values: map<string, string>) {
    forall k :: k in values ==> ValidKey(k) && NulFree(values[k])
  }

  function EscapeChar(c: char): string {
    if c == '\\' then "\\\\"
    else if c == '\'' then "\\'"
    else if c == '\n' then "\\n"
    else if c == '\r' then "\\r"
    else if c == '\t' then "\\t"
    else [c]
  }

  function Escape(value: string): string {
    if value == [] then [] else EscapeChar(value[0]) + Escape(value[1..])
  }

  function Line(key: string, value: string): string {
    key + "='" + Escape(value) + "'\n"
  }

  function Lines(keys: seq<string>, values: map<string, string>): string
    requires forall i :: 0 <= i < |keys| ==> keys[i] in values
  {
    if keys == [] then [] else Line(keys[0], values[keys[0]]) + Lines(keys[1..], values)
  }

  lemma {:induction false} LinesAppend(keys: seq<string>, key: string, values: map<string, string>)
    requires forall i :: 0 <= i < |keys| ==> keys[i] in values
    requires key in values
    ensures Lines(keys + [key], values) == Lines(keys, values) + Line(key, values[key])
  {
    if keys == [] {
      assert [key][1..] == [];
    } else {
      assert (keys + [key])[1..] == keys[1..] + [key];
      LinesAppend(keys[1..], key, values);
    }
  }

  /** The second loop: one line for each key. */
  method WriteLines(keys: seq<string>, values: map<string, string>) returns (text: string)
    requires forall i :: 0 <= i < |keys| ==> keys[i] in values
    ensures text == Lines(keys, values)
  {
    text := [];
    for i := 0 to |keys|
      invariant text == Lines(keys[..i], values)
    {
      var key := keys[i];
      text := text + Line(key, values[key]);
      LinesAppend(keys[..i], key, values);
      assert keys[..i + 1] == keys[..i] + [key];
    }
    assert keys[..|keys|] == keys;
  }

  /** The serializer: keys are collected in the arbitrary order of map iteration and sorted. */
  method SerializeEnvironment(values: map<string, string>) returns (r: Serialized, ghost sorted: seq<string>)
    ensures r.Text? <==> ValidEnvironment(values)
    ensures r.Text? ==> SortedKeys(sorted, values) && r.text == Lines(sorted, values)
  {
    var keys: seq<string> := [];
    var rest := values.Keys;
    while rest != {}
      invariant rest <= values.Keys && Increasing(keys)
      invariant forall k :: k in keys <==> k in values.Keys - rest
      invariant forall k :: k in keys ==> ValidKey(k) && NulFree(values[k])
      decreases |rest|
    {
      var key :| key in rest;
      if !ValidKey(key) || !NulFree(values[key]) {
        return Invalid, [];
      }
      keys := Insert(key, keys);
      rest := rest - {key};
    }
    sorted := keys;
    assert SortedKeys(keys, values) by {
      assert forall i :: 0 <= i < |keys| ==> keys[i] in keys;
    }
    var text := WriteLines(keys, values);
    r := Text(text);
  }

  /** Five characters are escaped, each by itself: backslash, quote, newline, carriage return and tab. */
  lemma {:induction false} EscapeIsExact(a: string, b: string, c: char)
    ensures Escape(a + b) == Escape(a) + Escape(b)
    ensures Escape([c]) == if c == '\\' || c == '\'' then ['\\', c]
                           else if c == '\n' then ['\\', 'n'] else if c == '\r' then ['\\', 'r'] else if c == '\t' then ['\\', 't']
                           else [c]
    decreases a
  {
    assert [c][1..] == [] && Escape([]) == [];
    assert Escape([c]) == EscapeChar(c) + [];
    if a == [] {
      assert a + b == b;
    } else {
      assert (a + b)[1..] == a[1..] + b;
      EscapeIsExact(a[1..], b, c);
    }
  }

  // ---------------------------------------------------------------- reading it back

  /** Splits at the first '='. */
  function ReadKey(text: string): Option<(string, string)> {
    if text == [] then None
    else if text[0] == '=' then Some(([], text[1..]))
    else match ReadKey(text[1..])
      case None => None
      case Some((key, rest)) => Some(([text[0]] + key, rest))
  }

  function UnescapeChar(c: char): char {
    if c == 'n' then '\n' else if c == 'r' then '\r' else if c == 't' then '\t' else c
  }

  /** Reads up to the closing quote, undoing the escapes. */
  function ReadValue(text: string): Option<(string, string)> {
    if text == [] then None
    else if text[0] == '\'' then Some(([], text[1..]))
    else if text[0] == '\\' then
      if |text| < 2 then None
      else match ReadValue(text[2..])
        case None => None
        case Some((value, rest)) => Some(([UnescapeChar(text[1])] + value, rest))
    else match ReadValue(text[1..])
      case None => None
      case Some((value, rest)) => Some(([text[0]] + value, rest))
  }

  lemma {:induction false} ReadKeyShortens(text: string)
    ensures ReadKey(text).Some? ==> |ReadKey(text).value.1| < |text|
  {
    if text != [] && text[0] != '=' {
      ReadKeyShortens(text[1..]);
    }
  }

  lemma {:induction false} ReadValueShortens(text: string)
    ensures ReadValue(text).Some? ==> |ReadValue(text).value.1| < |text|
    decreases |text|
  {
    if text != [] && text[0] == '\\' && |text| >= 2 {
      ReadValueShortens(text[2..]);
    } else if text != [] && text[0] != '\'' && text[0] != '\\' {
      ReadValueShortens(text[1..]);
    }
  }

  /** A reader for the serialized form. */
  function Parse(text: string): Option<map<string, string>>
    decreases |text|
  {
    if text == [] then Some(map[])
    else match ReadKey(text)
      case None => None
      case Some((key, afterKey)) =>
        ReadKeyShortens(text);
        if afterKey == [] || afterKey[0] != '\'' then None
        else match ReadValue(afterKey[1..])
          case None => None
          case Some((value, afterValue)) =>
            ReadValueShortens(afterKey[1..]);
            if afterValue == [] || afterValue[0] != '\n' then None
            else match Parse(afterValue[1..])
              case None => None
              case Some(others) => Some(others[key := value])
  }

  lemma {:induction false} KeyReadsBack(key: string, rest: string)
    requires forall i :: 0 <= i < |key| ==> KeyChar(key[i])
    ensures ReadKey(key + "=" + rest) == Some((key, rest))
  {
    var text := key + "=" + rest;
    if key == [] {
      assert text[1..] == rest;
    } else {
      assert text[1..] == key[1..] + "=" + rest;
      KeyReadsBack(key[1..], rest);
      assert [key[0]] + key[1..] == key;
    }
  }

  lemma {:induction false} ValueReadsBack(value: string, rest: string)
    ensures ReadValue(Escape(value) + "'" + rest) == Some((value, rest))
  {
    var text := Escape(value) + "'" + rest;
    if value == [] {
      assert text[1..] == rest;
    } else {
      var tail := Escape(value[1..]) + "'" + rest;
      ValueReadsBack(value[1..], rest);
      assert text == EscapeChar(value[0]) + tail;
      assert text[|EscapeChar(value[0])|..] == tail;
      assert [value[0]] + value[1..] == value;
    }
  }

  lemma LineReadsBack(key: string, value: string, rest: string)
    requires ValidKey(key)
    ensures Parse(Line(key, value) + rest) ==
            match Parse(rest) { case None => None case Some(others) => Some(others[key := value]) }
  {
    var text := Line(key, value) + rest;
    var afterValue := "\n" + rest;
    var afterKey := "'" + (Escape(value) + "'" + afterValue);
    assert text == key + "=" + afterKey;
    KeyReadsBack(key, afterKey);
    assert afterKey[1..] == Escape(value) + "'" + afterValue;
    ValueReadsBack(value, afterValue);
    assert afterValue[1..] == rest;
  }

  /** The parser recovers exactly the listed part of the map. */
  lemma {:induction false} LinesReadBack(keys: seq<string>, values: map<string, string>)
    requires forall i :: 0 <= i < |keys| ==> keys[i] in values && ValidKey(keys[i])
    ensures Parse(Lines(keys, values)) == Some(map k | k in values && k in keys :: values[k])
  {
    if keys != [] {
      LinesReadBack(keys[1..], values);
      LineReadsBack(keys[0], values[keys[0]], Lines(keys[1..], values));
      assert keys == [keys[0]] + keys[1..];
      assert (map k | k in values && k in keys :: values[k])
          == (map k | k in values && k in keys[1..] :: values[k])[keys[0] := values[keys[0]]];
    }
  }

  /** Round trip: the serialized text determines the environment. */
  lemma SerializedRoundTrip(keys: seq<string>, values: map<string, string>)
    requires ValidEnvironment(values) && SortedKeys(keys, values)
    ensures Parse(Lines(keys, values)) == Some(values)
  {
    LinesReadBack(keys, values);
    assert (map k | k in values && k in keys :: values[k]) == values;
  }

  /** The text is a function of the map alone: every iteration order sorts to one list. */
  lemma SerializedIsOrderIndependent(a: seq<string>, b: seq<string>, values: map<string, string>)
    requires SortedKeys(a, values) && SortedKeys(b, values)
    ensures Lines(a, values) == Lines(b, values)
  {
    forall k ensures k in a <==> k in b {
      if k in a { var i :| 0 <= i < |a| && a[i] == k; }
      if k in b { var i :| 0 <= i < |b| && b[i] == k; }
    }
    IncreasingUnique(a, b);
  }

  // ---------------------------------------------------------------- digest preimage

  function Preimage(project: string, environment: string): string {
    project + [NUL] + environment
  }

  lemma {:induction false} EscapeNulFree(value: string)
    requires NulFree(value)
    ensures NulFree(Escape(value))
  {
    if value != [] {
      assert value[0] in value;
      assert forall c :: c in value[1..] ==> c in value;
      EscapeNulFree(value[1..]);
    }
  }

  lemma {:induction false} LinesNulFree(keys: seq<string>, values: map<string, string>)
    requires ValidEnvironment(values) && forall i :: 0 <= i < |keys| ==> keys[i] in values
    ensures NulFree(Lines(keys, values))
  {
    if keys != [] {
      EscapeNulFree(values[keys[0]]);
      assert NulFree(keys[0]);
      LinesNulFree(keys[1..], values);
    }
  }

  /** A NUL-free second part makes the concatenation splittable, whatever the first holds. */
  lemma PreimageSplits(p: string, q: string, e: string, f: string)
    requires NulFree(e) && NulFree(f) && Preimage(p, e) == Preimage(q, f)
    ensures p == q && e == f
  {
    var text := Preimage(p, e);
    assert text[|p|] == NUL && text[|q|] == NUL;
    assert p == text[..|p|] && q == text[..|q|];
    assert e == text[|p| + 1..] && f == text[|q| + 1..];
  }

  /** Equal digest preimages mean equal projects and equal environments. */
  lemma PreimageIsInjective(p: string, q: string, v: map<string, string>, w: map<string, string>,
                            vKeys: seq<string>, wKeys: seq<string>)
    requires ValidEnvironment(v) && SortedKeys(vKeys, v)
    requires ValidEnvironment(w) && SortedKeys(wKeys, w)
    requires Preimage(p, Lines(vKeys, v)) == Preimage(q, Lines(wKeys, w))
    ensures p == q && v == w
  {
    LinesNulFree(vKeys, v);
    LinesNulFree(wKeys, w);
    PreimageSplits(p, q, Lines(vKeys, v), Lines(wKeys, w));
    SerializedRoundTrip(vKeys, v);
    SerializedRoundTrip(wKeys, w);
  }
}
