/** Scattering of perf-event terms over the bits of a 64-bit config register.
    A machine word is represented by the set of its one-bits. */
module PerfEvent {
  import opened Sets

  const WORD_BITS: nat := 64

  type Bit = b: nat | b < WORD_BITS

  type Word = w: set<nat> | forall b :: b in w ==> b < WORD_BITS witness {}

  /** One comma-separated part of a format; a single bit is a range of one. */
  datatype Part = Unreadable | Bits(lo: Bit, hi: Bit)

  datatype Format = Malformed | Format(register: string, parts: seq<Part>)

  datatype Value = NotANumber | Number(word: Word)

  datatype Term = Term(key: string, value: Value)

  datatype Encoding = Rejected | Encoded(word: Word)

  // ---------------------------------------------------------------- specification

  predicate Readable(parts: seq<Part>) {
    forall i :: 0 <= i < |parts| ==> parts[i].Bits? && parts[i].lo <= parts[i].hi
  }

  function Span(lo: nat, hi: nat): (bits: seq<nat>)
    requires lo <= hi + 1
    ensures |bits| == hi + 1 - lo
    ensures forall i :: 0 <= i < |bits| ==> bits[i] == lo + i
  {
    seq(hi + 1 - lo, i requires i >= 0 => lo + i)
  }

  /** Register positions of a field, least significant value bit first. */
  function Positions(parts: seq<Part>): seq<nat>
    requires Readable(parts)
  {
    if parts == [] then []
    else
      var last := parts[|parts| - 1];
      Positions(parts[..|parts| - 1]) + Span(last.lo, last.hi)
  }

  predicate Unique(bits: seq<nat>) {
    forall i, j :: 0 <= i < j < |bits| ==> bits[i] != bits[j]
  }

  function Mask(bits: seq<nat>): set<nat> {
    set i | 0 <= i < |bits| :: bits[i]
  }

  /** Reads a field back out of a register. */
  function Gather(word: set<nat>, bits: seq<nat>): set<nat> {
    set k | 0 <= k < |bits| && bits[k] in word
  }

  predicate FormatOk(key: string, formats: map<string, Format>) {
    && key in formats
    && formats[key].Format?
    && formats[key].register == "config"
    && Readable(formats[key].parts)
  }

  function Field(key: string, formats: map<string, Format>): seq<nat>
    requires FormatOk(key, formats)
  {
    Positions(formats[key].parts)
  }

  /** The value fits its field and the field names no position twice. */
  predicate TermOk(t: Term, formats: map<string, Format>) {
    && t.value.Number?
    && FormatOk(t.key, formats)
    && Unique(Field(t.key, formats))
    && forall k :: k in t.value.word ==> k < |Field(t.key, formats)|
  }

  /** Every term is well formed, and `fields` lists the positions of each. */
  ghost predicate Resolves(terms: seq<Term>, formats: map<string, Format>, fields: seq<seq<nat>>) {
    && |fields| == |terms|
    && forall i :: 0 <= i < |terms| ==>
         TermOk(terms[i], formats) && fields[i] == Field(terms[i].key, formats)
  }

  /** All positions taken by a list of fields. */
  function Occupied(fields: seq<seq<nat>>): set<nat> {
    if fields == [] then {}
    else Occupied(fields[..|fields| - 1]) + Mask(fields[|fields| - 1])
  }

  predicate Disjoint(fields: seq<seq<nat>>) {
    forall i, j :: 0 <= i < j < |fields| ==> Mask(fields[i]) !! Mask(fields[j])
  }

  ghost predicate ReadsBack(word: set<nat>, fields: seq<seq<nat>>, values: seq<set<nat>>) {
    && |values| == |fields|
    && forall i :: 0 <= i < |fields| ==> Gather(word, fields[i]) == values[i]
  }

  // ---------------------------------------------------------------- lemmas

  lemma {:induction false} MaskSize(bits: seq<nat>)
    requires Unique(bits)
    ensures |Mask(bits)| == |bits|
  {
    if bits != [] {
      var init := bits[..|bits| - 1];
      MaskSize(init);
      assert Mask(bits) == Mask(init) + {bits[|bits| - 1]};
    }
  }

  lemma MaskAppend(bits: seq<nat>, bit: nat)
    ensures Mask(bits + [bit]) == Mask(bits) + {bit}
  {
    var next := bits + [bit];
    assert next[|bits|] == bit;
    forall b | b in Mask(bits) ensures b in Mask(next) {
      var i :| 0 <= i < |bits| && bits[i] == b;
      assert next[i] == b;
    }
  }

  /** Distinct positions of a 64-bit register are at most 64. */
  lemma UniqueFits(bits: seq<nat>)
    requires Unique(bits)
    requires forall i :: 0 <= i < |bits| ==> bits[i] < WORD_BITS
    ensures |bits| <= WORD_BITS
  {
    var all := Span(0, WORD_BITS - 1);
    MaskSize(bits);
    MaskSize(all);
    forall b | b in Mask(bits) ensures b in Mask(all) {
      assert all[b] == b;
    }
    SubsetSize(Mask(bits), Mask(all));
  }

  lemma {:induction false} PositionsBounded(parts: seq<Part>)
    requires Readable(parts)
    ensures forall i :: 0 <= i < |Positions(parts)| ==> Positions(parts)[i] < WORD_BITS
  {
    if parts != [] {
      PositionsBounded(parts[..|parts| - 1]);
    }
  }

  lemma {:induction false} PositionsPrefix(parts: seq<Part>, n: nat)
    requires Readable(parts) && n <= |parts|
    ensures Positions(parts[..n]) <= Positions(parts)
  {
    if n < |parts| {
      var init := parts[..|parts| - 1];
      assert init[..n] == parts[..n];
      PositionsPrefix(init, n);
    } else {
      assert parts[..n] == parts;
    }
  }

  lemma UniquePrefix(a: seq<nat>, b: seq<nat>)
    requires a <= b && Unique(b)
    ensures Unique(a)
  {
    forall i, j | 0 <= i < j < |a| ensures a[i] != a[j] {
      assert a[i] == b[i] && a[j] == b[j];
    }
  }

  // ---------------------------------------------------------------- placing one value

  /** `mask` and `encoded` are what placing `word` on the positions `bits` must give. */
  ghost predicate Placed(word: Word, bits: seq<nat>, mask: Word, encoded: Word) {
    && Unique(bits)
    && mask == Mask(bits)
    && encoded <= mask
    && forall k :: 0 <= k < |bits| ==> (bits[k] in encoded <==> k in word)
  }

  lemma PlaceBit(word: Word, bits: seq<nat>, mask: Word, encoded: Word, bit: Bit)
    requires Placed(word, bits, mask, encoded) && bit !in mask
    ensures |bits| < WORD_BITS
    ensures Placed(word, bits + [bit], mask + {bit}, if |bits| in word then encoded + {bit} else encoded)
  {
    forall i | 0 <= i < |bits| ensures bits[i] in mask {}
    var next := bits + [bit];
    assert forall i, j :: 0 <= i < j < |next| ==> next[i] != next[j];
    UniqueFits(next);
    MaskAppend(bits, bit);
  }

  lemma DuplicateBit(bits: seq<nat>, rest: seq<nat>)
    requires rest != [] && rest[0] in Mask(bits)
    ensures !Unique(bits + rest)
  {
    var all := bits + rest;
    var k :| 0 <= k < |bits| && bits[k] == rest[0];
    assert all[k] == all[|bits|];
  }

  /** The innermost loop: one range of register bits. */
  method PlaceRange(word: Word, lo: Bit, hi: Bit, position: nat, mask0: Word, encoded0: Word, ghost bits: seq<nat>)
    returns (ok: bool, mask: Word, encoded: Word)
    requires lo <= hi
    requires Placed(word, bits, mask0, encoded0) && position == |bits|
    ensures ok <==> Unique(bits + Span(lo, hi))
    ensures ok ==> Placed(word, bits + Span(lo, hi), mask, encoded)
  {
    mask, encoded := mask0, encoded0;
    ghost var span := Span(lo, hi);
    ghost var done := bits;
    for bit := lo to hi + 1
      invariant done == bits + span[..bit - lo]
      invariant Placed(word, done, mask, encoded)
    {
      var at := position + (bit - lo);
      assert bits + span == done + span[bit - lo..];
      if bit in mask {
        DuplicateBit(done, span[bit - lo..]);
        return false, {}, {};
      }
      PlaceBit(word, done, mask, encoded, bit);
      if at >= WORD_BITS {
        assert false;
      }
      mask := mask + {bit};
      if at in word {
        encoded := encoded + {bit};
      }
      done := done + [bit];
      assert done == bits + span[..bit + 1 - lo];
    }
    assert done == bits + span;
    ok := true;
  }

  /** Scatters one value over the positions its format lists. */
  method PlaceValue(word: Word, parts: seq<Part>) returns (ok: bool, position: nat, mask: Word, encoded: Word)
    ensures ok <==> Readable(parts) && Unique(Positions(parts))
    ensures ok ==> position == |Positions(parts)| && Placed(word, Positions(parts), mask, encoded)
  {
    position, mask, encoded := 0, {}, {};
    ghost var bits: seq<nat> := [];
    for i := 0 to |parts|
      invariant Readable(parts[..i]) && bits == Positions(parts[..i])
      invariant position == |bits| && Placed(word, bits, mask, encoded)
    {
      var part := parts[i];
      if part.Unreadable? || part.hi < part.lo {
        return false, 0, {}, {};
      }
      PositionsSnoc(parts, i);
      ok, mask, encoded := PlaceRange(word, part.lo, part.hi, position, mask, encoded, bits);
      if !ok {
        DuplicateInPrefix(parts, i + 1);
        return;
      }
      bits := bits + Span(part.lo, part.hi);
      position := position + (part.hi - part.lo + 1);
    }
    assert parts[..|parts|] == parts;
    ok := true;
  }

  lemma PositionsSnoc(parts: seq<Part>, i: nat)
    requires i < |parts| && Readable(parts[..i]) && parts[i].Bits? && parts[i].lo <= parts[i].hi
    ensures Readable(parts[..i + 1])
    ensures Positions(parts[..i + 1]) == Positions(parts[..i]) + Span(parts[i].lo, parts[i].hi)
  {
    assert parts[..i + 1][..i] == parts[..i];
  }

  lemma DuplicateInPrefix(parts: seq<Part>, n: nat)
    requires n <= |parts| && Readable(parts[..n]) && !Unique(Positions(parts[..n]))
    ensures !(Readable(parts) && Unique(Positions(parts)))
  {
    if Readable(parts) && Unique(Positions(parts)) {
      PositionsPrefix(parts, n);
      UniquePrefix(Positions(parts[..n]), Positions(parts));
    }
  }

  /** A placed value that fits its field is what the field reads back. */
  lemma PlacedReadsBack(word: Word, bits: seq<nat>, mask: Word, encoded: Word)
    requires Placed(word, bits, mask, encoded)
    requires forall k :: k in word ==> k < |bits|
    ensures Gather(encoded, bits) == word
  {
    forall k | k in word ensures k in Gather(encoded, bits) {
      assert bits[k] in encoded;
    }
  }

  /** One term: its key, format and value are checked and the value placed. */
  method EncodeTerm(t: Term, formats: map<string, Format>) returns (ok: bool, mask: Word, encoded: Word)
    ensures ok <==> TermOk(t, formats)
    ensures ok ==> mask == Mask(Field(t.key, formats)) && encoded <= mask
    ensures ok ==> Gather(encoded, Field(t.key, formats)) == t.value.word
  {
    mask, encoded := {}, {};
    if t.value.NotANumber? || t.key !in formats {
      return false, mask, encoded;
    }
    var format := formats[t.key];
    if format.Malformed? || format.register != "config" {
      return false, mask, encoded;
    }
    var position;
    ok, position, mask, encoded := PlaceValue(t.value.word, format.parts);
    if ok {
      // n >> position != 0 says that some one-bit of the value was not placed.
      if position < WORD_BITS && !(forall k :: k in t.value.word ==> k < position) {
        return false, mask, encoded;
      }
      PlacedReadsBack(t.value.word, Field(t.key, formats), mask, encoded);
    }
  }

  // ---------------------------------------------------------------- packing an event

  lemma {:induction false} OccupiedMasks(fields: seq<seq<nat>>, i: nat)
    requires i < |fields|
    ensures Mask(fields[i]) <= Occupied(fields)
  {
    if i < |fields| - 1 {
      OccupiedMasks(fields[..|fields| - 1], i);
    }
  }

  lemma {:induction false} OccupiedBy(fields: seq<seq<nat>>, b: nat) returns (i: nat)
    requires b in Occupied(fields)
    ensures i < |fields| && b in Mask(fields[i])
  {
    if b in Mask(fields[|fields| - 1]) {
      i := |fields| - 1;
    } else {
      i := OccupiedBy(fields[..|fields| - 1], b);
    }
  }

  /** One more field keeps the fields disjoint exactly when it avoids the occupied bits. */
  lemma DisjointStep(fields: seq<seq<nat>>, bits: seq<nat>)
    requires Disjoint(fields)
    ensures Disjoint(fields + [bits]) <==> Occupied(fields) !! Mask(bits)
  {
    var next := fields + [bits];
    if Occupied(fields) !! Mask(bits) {
      forall i, j | 0 <= i < j < |next| ensures Mask(next[i]) !! Mask(next[j]) {
        if j == |fields| {
          OccupiedMasks(fields, i);
        }
      }
    } else {
      var b :| b in Occupied(fields) && b in Mask(bits);
      var i := OccupiedBy(fields, b);
      assert next[i] == fields[i] && next[|fields|] == bits;
    }
  }

  /** Bits outside a field do not show when the field is read. */
  lemma GatherIgnores(word: set<nat>, extra: set<nat>, bits: seq<nat>)
    requires extra !! Mask(bits)
    ensures Gather(word + extra, bits) == Gather(word, bits)
  {
    forall k | 0 <= k < |bits| ensures bits[k] !in extra {
      assert bits[k] in Mask(bits);
    }
  }

  /** Packing one more disjoint field leaves every earlier field readable. */
  lemma ReadsBackStep(word: set<nat>, encoded: set<nat>, fields: seq<seq<nat>>, values: seq<set<nat>>,
                      bits: seq<nat>, value: set<nat>)
    requires ReadsBack(word, fields, values) && word <= Occupied(fields)
    requires encoded <= Mask(bits) && Gather(encoded, bits) == value
    requires Occupied(fields) !! Mask(bits)
    ensures ReadsBack(word + encoded, fields + [bits], values + [value])
  {
    forall i | 0 <= i < |fields| ensures Gather(word + encoded, fields[i]) == values[i] {
      OccupiedMasks(fields, i);
      GatherIgnores(word, encoded, fields[i]);
    }
    GatherIgnores(encoded, word, bits);
    assert word + encoded == encoded + word;
  }

  lemma EmptyIntersection(a: set<nat>, b: set<nat>)
    ensures a * b == {} <==> a !! b
  {
    if a !! b {
      assert a * b == {};
    } else {
      var x :| x in a && x in b;
      assert x in a * b;
    }
  }

  /** What an encoded term says: its key has a readable format in the config register, and its value is a number
      that fits its field, which names no position twice. */
  predicate Accepted(t: Term, formats: map<string, Format>, field: seq<nat>) {
    && t.key in formats && formats[t.key].Format? && formats[t.key].register == "config"
    && t.value.Number? && (forall k :: k in t.value.word ==> k < |field|)
    && forall i, j :: 0 <= i < j < |field| ==> field[i] != field[j]
  }

  /** Packs all terms of an event. It succeeds exactly when every term is well formed
      and no two fields share a position; each field of the packed register then reads
      back as the value it was given, and no other bit is set. */
  method EncodePerfEvent(terms: seq<Term>, formats: map<string, Format>) returns (r: Encoding, ghost fields: seq<seq<nat>>)
    ensures r.Encoded? ==> Resolves(terms, formats, fields) && Disjoint(fields)
    ensures r.Encoded? ==> |fields| == |terms| && forall i :: 0 <= i < |terms| ==> Accepted(terms[i], formats, fields[i])
    ensures r.Encoded? ==> r.word <= Occupied(fields)
    ensures r.Encoded? ==> ReadsBack(r.word, fields, Values(terms)) && Encodes(terms, formats, r.word)
    ensures r.Rejected? ==> !exists f :: Resolves(terms, formats, f) && Disjoint(f)
  {
    var result: Word, occupied: Word := {}, {};
    fields := [];
    for n := 0 to |terms|
      invariant Resolves(terms[..n], formats, fields) && Disjoint(fields)
      invariant occupied == Occupied(fields) && result <= occupied
      invariant ReadsBack(result, fields, Values(terms[..n]))
    {
      var ok, mask, encoded := EncodeTerm(terms[n], formats);
      if !ok {
        return Rejected, fields;
      }
      ghost var bits := Field(terms[n].key, formats);
      DisjointStep(fields, bits);
      EmptyIntersection(occupied, mask);
      if occupied * mask != {} {
        Overlap(terms, formats, fields, n);
        return Rejected, fields;
      }
      OneMoreTerm(terms, formats, fields, n);
      ReadsBackStep(result, encoded, fields, Values(terms[..n]), bits, terms[n].value.word);
      fields := fields + [bits];
      occupied := occupied + mask;
      result := result + encoded;
    }
    assert terms[..|terms|] == terms;
    r := Encoded(result);
  }

  lemma OneMoreTerm(terms: seq<Term>, formats: map<string, Format>, fields: seq<seq<nat>>, n: nat)
    requires n < |terms| && Resolves(terms[..n], formats, fields) && TermOk(terms[n], formats)
    ensures var bits := Field(terms[n].key, formats);
            && Resolves(terms[..n + 1], formats, fields + [bits])
            && Occupied(fields + [bits]) == Occupied(fields) + Mask(bits)
            && Values(terms[..n + 1]) == Values(terms[..n]) + [terms[n].value.word]
  {
    var bits := Field(terms[n].key, formats);
    assert (fields + [bits])[..n] == fields;
    forall i | 0 <= i < n ensures terms[..n + 1][i] == terms[..n][i] && (fields + [bits])[i] == fields[i] {}
  }

  function Values(terms: seq<Term>): seq<set<nat>> {
    seq(|terms|, i requires 0 <= i < |terms| => if terms[i].value.Number? then terms[i].value.word else {})
  }

  /** Two overlapping fields among the first terms rule out any successful packing. */
  lemma Overlap(terms: seq<Term>, formats: map<string, Format>, fields: seq<seq<nat>>, n: nat)
    requires n < |terms| && Resolves(terms[..n], formats, fields) && TermOk(terms[n], formats)
    requires !Disjoint(fields + [Field(terms[n].key, formats)])
    ensures !exists f :: Resolves(terms, formats, f) && Disjoint(f)
  {
    forall f | Resolves(terms, formats, f) ensures !Disjoint(f) {
      assert f[..n + 1] == fields + [Field(terms[n].key, formats)];
    }
  }

  /** `word` is an encoding of the terms: each field reads back its value, and no other bit is set. */
  ghost predicate Encodes(terms: seq<Term>, formats: map<string, Format>, word: set<nat>) {
    exists fields :: Resolves(terms, formats, fields) && Disjoint(fields)
                     && word <= Occupied(fields) && ReadsBack(word, fields, Values(terms))
  }

  predicate SameKeys(a: seq<Term>, b: seq<Term>) {
    |a| == |b| && forall i :: 0 <= i < |a| ==> a[i].key == b[i].key
  }

  /** A register with no bit outside its fields is determined by what they read back. */
  lemma ReadsDetermine(v: set<nat>, w: set<nat>, fields: seq<seq<nat>>, values: seq<set<nat>>)
    requires v <= Occupied(fields) && ReadsBack(v, fields, values) && ReadsBack(w, fields, values)
    ensures v <= w
  {
    forall b | b in v ensures b in w {
      var i := OccupiedBy(fields, b);
      var k :| 0 <= k < |fields[i]| && fields[i][k] == b;
      assert k in Gather(v, fields[i]) && k in Gather(w, fields[i]);
    }
  }

  /** Encoding loses nothing and adds nothing: of two events with the same keys, the registers are equal if
      and only if the values are. */
  lemma EncodingIsInjective(a: seq<Term>, b: seq<Term>, formats: map<string, Format>, v: set<nat>, w: set<nat>)
    requires Encodes(a, formats, v) && Encodes(b, formats, w) && SameKeys(a, b)
    ensures v == w <==> Values(a) == Values(b)
  {
    var f :| Resolves(a, formats, f) && Disjoint(f) && v <= Occupied(f) && ReadsBack(v, f, Values(a));
    var g :| Resolves(b, formats, g) && Disjoint(g) && w <= Occupied(g) && ReadsBack(w, g, Values(b));
    assert f == g;
    if v == w {
      assert forall i :: 0 <= i < |f| ==> Values(a)[i] == Values(b)[i];
    }
    if Values(a) == Values(b) {
      ReadsDetermine(v, w, f, Values(a));
      ReadsDetermine(w, v, f, Values(a));
    }
  }
}
