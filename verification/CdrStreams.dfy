/** The emitted code itself: a writer and a reader that carry __cdr_offset along as they
    walk a value (ddsdata_derive/src/lib.rs:205-449), against the functions of Cdr. */
module CdrStreams {
  import opened Types
  import opened Octets
  import opened Cdr

  /** Still to be written after `out`: `w`; when that is done it will be `all`. */
  ghost predicate Ahead(out: seq<Octet>, w: Written, all: seq<Octet>, e: Endianness) {
    out + Bytes(w.pieces, e) == all
  }

  lemma OneItemLess(out: seq<Octet>, a: Written, b: Written, all: seq<Octet>, e: Endianness)
    requires Ahead(out, Then(a, b), all, e)
    ensures Ahead(out + Bytes(a.pieces, e), b, all, e)
  {
    BytesConcat(a.pieces, b.pieces, e);
  }

  lemma ItemsFrom(elem: Ty, items: seq<Val>, off: nat, i: nat)
    requires i < |items| && forall j :: 0 <= j < |items| ==> Typed(elem, items[j])
    ensures var first := Write(elem, items[i], off);
      WriteItems(elem, items[i..], off) == Then(first, WriteItems(elem, items[i + 1..], first.off))
  {
  }

  lemma EntriesFrom(key: Ty, val: Ty, es: seq<Entry>, off: nat, i: nat)
    requires i < |es| && forall j :: 0 <= j < |es| ==> EntryTyped(key, val, es[j])
    ensures EntryTyped(key, val, es[i])
    ensures var k := Write(key, es[i].key, off);
      var v := Write(val, es[i].val, k.off);
      WriteEntries(key, val, es[i..], off) == Then(Then(k, v), WriteEntries(key, val, es[i + 1..], v.off))
  {
  }

  lemma TextBytes(octets: seq<Octet>, off: nat, e: Endianness)
    requires Typed(Text, Str(octets))
    ensures Bytes(Write(Text, Str(octets), off).pieces, e)
         == Bytes(WriteWord(4, |octets| + 1, off).pieces, e) + (octets + Spell(0, 1, e))
  {
    var body := [Plain(octets), Word(1, 0)];
    BytesConcat(WriteWord(4, |octets| + 1, off).pieces, body, e);
    assert body[1..] == [Word(1, 0)] && [Word(1, 0)][1..] == [];
    assert Bytes(body, e) == octets + (Spell(0, 1, e) + []);
  }

  lemma MoreBytes(out: seq<Octet>, a: Written, b: Written, e: Endianness)
    ensures out + Bytes(Then(a, b).pieces, e) == out + Bytes(a.pieces, e) + Bytes(b.pieces, e)
  {
    BytesConcat(a.pieces, b.pieces, e);
  }

  class Serializer {
    const e: Endianness
    var out: seq<Octet>
    var off: nat

    constructor (e: Endianness)
      ensures this.e == e && out == [] && off == 0
    {
      this.e, out, off := e, [], 0;
    }

    /** `w` has been written since the state was (`out0`, off0). */
    ghost predicate Did(out0: seq<Octet>, w: Written)
      reads this
    {
      out == out0 + Bytes(w.pieces, e) && off == w.off
    }

    method PutWord(size: nat, raw: nat)
      requires IsWidth(size)
      modifies this
      ensures Did(old(out), WriteWord(size, raw, old(off)))
    {
      hide Bytes, Spell, Zeros, Padding;
      WordBytes(size, raw, off, e);
      var pad := Padding(off, size);
      out := out + Zeros(pad);
      off := off + pad;
      out := out + Spell(raw, size, e);
      off := off + size;
    }

    method PutText(octets: seq<Octet>)
      requires Typed(Text, Str(octets))
      modifies this
      ensures Did(old(out), Write(Text, Str(octets), old(off)))
    {
      hide Padding, Zeros;
      TextBytes(octets, off, e);
      PutWord(4, |octets| + 1);
      out := out + octets;
      out := out + Spell(0, 1, e);
      off := off + |octets| + 1;
    }

    /** gen_write_stmt, carried out for one value. */
    method Put(ty: Ty, v: Val)
      requires Typed(ty, v)
      modifies this
      ensures Did(old(out), Write(ty, v, old(off)))
      decreases ty, 1
    {
      match ty
      case Scalar(p) => PutWord(Width(p), RawOf(p, v.n));
      case Text => PutText(v.octets);
      case Vec(elem) =>
        ghost var len := WriteWord(4, |v.items|, off);
        MoreBytes(out, len, WriteItems(elem, v.items, len.off), e);
        PutWord(4, |v.items|);
        PutItems(elem, v.items);
      case Array(elem, _) => PutItems(elem, v.items);
      case Map(key, val) =>
        ghost var len := WriteWord(4, |v.entries|, off);
        assert forall i :: 0 <= i < |v.entries| ==> EntryTyped(key, val, v.entries[i]);
        MoreBytes(out, len, WriteEntries(key, val, v.entries, len.off), e);
        PutWord(4, |v.entries|);
        PutEntries(key, val, v.entries);
      case Nested(fields) =>
        // the nested write_to has an offset of its own
        var outer := off;
        off := 0;
        PutFields(fields, v.vals);
        off := outer;
    }

    method PutItems(elem: Ty, items: seq<Val>)
      requires forall i :: 0 <= i < |items| ==> Typed(elem, items[i])
      modifies this
      ensures Did(old(out), WriteItems(elem, items, old(off)))
      decreases elem, 2
    {
      ghost var all := WriteItems(elem, items, off);
      var i := 0;
      assert items[0..] == items;
      while i < |items|
        invariant i <= |items| && WriteItems(elem, items[i..], off).off == all.off
        invariant Ahead(out, WriteItems(elem, items[i..], off), old(out) + Bytes(all.pieces, e), e)
      {
        ghost var first := Write(elem, items[i], off);
        ItemsFrom(elem, items, off, i);
        OneItemLess(out, first, WriteItems(elem, items[i + 1..], first.off), old(out) + Bytes(all.pieces, e), e);
        Put(elem, items[i]);
        i := i + 1;
      }
      assert items[i..] == [] && out + [] == out;
    }

    method PutEntries(key: Ty, val: Ty, es: seq<Entry>)
      requires forall i :: 0 <= i < |es| ==> EntryTyped(key, val, es[i])
      modifies this
      ensures Did(old(out), WriteEntries(key, val, es, old(off)))
      decreases Map(key, val), 0
    {
      ghost var all := WriteEntries(key, val, es, off);
      var i := 0;
      assert es[0..] == es;
      while i < |es|
        invariant i <= |es| && WriteEntries(key, val, es[i..], off).off == all.off
        invariant Ahead(out, WriteEntries(key, val, es[i..], off), old(out) + Bytes(all.pieces, e), e)
      {
        EntriesFrom(key, val, es, off, i);
        ghost var k := Write(key, es[i].key, off);
        ghost var v := Write(val, es[i].val, k.off);
        OneItemLess(out, Then(k, v), WriteEntries(key, val, es[i + 1..], v.off), old(out) + Bytes(all.pieces, e), e);
        MoreBytes(out, k, v, e);
        Put(key, es[i].key);
        Put(val, es[i].val);
        i := i + 1;
      }
      assert es[i..] == [] && out + [] == out;
    }

    /** One write statement after another. */
    method PutFields(fields: Fields, vals: seq<Val>)
      requires FieldsTyped(fields, vals)
      modifies this
      ensures Did(old(out), WriteFields(fields, vals, old(off)))
      decreases fields, 1
    {
      match fields
      case NoFields => assert out + [] == out;
      case Field(ty, rest) =>
        ghost var first := Write(ty, vals[0], off);
        MoreBytes(out, first, WriteFields(rest, vals[1..], first.off), e);
        Put(ty, vals[0]);
        PutFields(rest, vals[1..]);
    }
  }

  lemma EntryStep(key: Ty, val: Ty, count: int, done: seq<Entry>, bs: seq<Octet>, off: nat, e: Endianness)
    requires count > 0
    ensures var r := ReadEntry(key, val, bs, off, e);
      ReadEntries(key, val, count, done, bs, off, e) ==
        if r.Ok? then ReadEntries(key, val, count - 1, Insert(done, r.value.entry.key, r.value.entry.val), r.value.rest, r.value.off, e)
        else r.Failure()
  {
  }

  lemma EntriesOver(key: Ty, val: Ty, count: int, done: seq<Entry>, bs: seq<Octet>, off: nat, e: Endianness)
    requires count <= 0
    ensures ReadEntries(key, val, count, done, bs, off, e) == Ok(Read(Entries(done), bs, off))
  {
  }

  class Deserializer {
    const e: Endianness
    var input: seq<Octet>            // what has not been read yet
    var off: nat

    constructor (input: seq<Octet>, e: Endianness)
      ensures this.e == e && this.input == input && off == 0
    {
      this.e, this.input, off := e, input, 0;
    }

    /** `got` and the state are what the reading function says; after an error the
        state does not matter. */
    ghost predicate Did(got: Reading<Val>, r: Reading<Read>)
      reads this
    {
      match r
      case Ok(r) => got == Ok(r.val) && input == r.rest && off == r.off
      case ReadError => got == ReadError
      case Panic => got == Panic
    }

    method GetWord(size: nat) returns (raw: Option<nat>)
      requires IsWidth(size)
      modifies this
      ensures var r := ReadWord(size, old(input), old(off), e);
        if r.None? then raw == None else raw == Some(r.value.raw) && input == r.value.rest && off == r.value.off
    {
      var pad := Padding(off, size);
      if |input| < pad + size {
        return None;
      }
      input, off := input[pad..], off + pad;
      assert input[..size] == old(input)[pad..pad + size];
      raw := Some(Value(input[..size], e));
      input, off := input[size..], off + size;
    }

    /** gen_read_expr, carried out. */
    method Get(ty: Ty) returns (got: Reading<Val>)
      modifies this
      ensures Did(got, ReadVal(ty, old(input), old(off), e))
      decreases ty, 3
    {
      match ty
      case Scalar(p) =>
        var raw := GetWord(Width(p));
        if raw.None? {
          return ReadError;
        }
        got := Ok(Number(NumberOf(p, raw.value)));
      case Text =>
        var raw := GetWord(4);
        if raw.None? {
          return ReadError;
        }
        var len := Signed(raw.value, 4);
        if len < 1 || |input| < len || !IsUtf8(input[..len - 1]) {
          return ReadError;
        }
        got := Ok(Str(input[..len - 1]));
        input, off := input[len..], off + len;
      case Vec(elem) =>
        var raw := GetWord(4);
        if raw.None? {
          return ReadError;
        }
        var len := Signed(raw.value, 4);
        if len >= 0 {
          got := GetItems(elem, len);
        } else if ZeroSized(elem) {
          got := Ok(Items([]));
        } else {
          got := Panic;
        }
      case Array(elem, len) => got := GetItems(elem, len);
      case Map(key, val) =>
        var raw := GetWord(4);
        if raw.None? {
          return ReadError;
        }
        got := GetEntries(key, val, Signed(raw.value, 4));
      case Nested(fields) =>
        var outer := off;
        off := 0;
        got := GetFields(fields, []);
        off := outer;
    }

    method GetItems(elem: Ty, count: nat) returns (got: Reading<Val>)
      modifies this
      ensures Did(got, ReadItems(elem, count, [], old(input), old(off), e))
      decreases elem, 4
    {
      var items := [];
      var i := 0;
      while i < count
        invariant i <= count
        invariant ReadItems(elem, count, [], old(input), old(off), e) == ReadItems(elem, count - i, items, input, off, e)
      {
        var item := Get(elem);
        if !item.Ok? {
          return item;
        }
        items := items + [item.value];
        i := i + 1;
      }
      got := Ok(Items(items));
    }

    method GetEntry(key: Ty, val: Ty) returns (got: Reading<Entry>)
      modifies this
      ensures match ReadEntry(key, val, old(input), old(off), e)
        case Ok(r) => got == Ok(r.entry) && input == r.rest && off == r.off
        case ReadError => got == ReadError
        case Panic => got == Panic
      decreases Map(key, val), 0
    {
      var k := Get(key);
      if !k.Ok? {
        return k.Failure();
      }
      var v := Get(val);
      if !v.Ok? {
        return v.Failure();
      }
      got := Ok(Entry(k.value, v.value));
    }

    method InsertNext(key: Ty, val: Ty, left: int, done: seq<Entry>, ghost all: Reading<Read>) returns (es: Reading<seq<Entry>>)
      requires left > 0 && ToCome(all, key, val, left, done)
      modifies this
      ensures if es.Ok? then ToCome(all, key, val, left - 1, es.value) else all == es.Failure()
      decreases Map(key, val), 1
    {
      EntryStep(key, val, left, done, input, off, e);
      var entry := GetEntry(key, val);
      es := if entry.Ok? then Ok(Insert(done, entry.value.key, entry.value.val)) else entry.Failure();
    }

    method GetEntries(key: Ty, val: Ty, count: int) returns (got: Reading<Val>)
      modifies this
      ensures Did(got, ReadEntries(key, val, count, [], old(input), old(off), e))
      decreases Map(key, val), 2
    {
      var es := [];
      var left := count;
      ghost var all := ReadEntries(key, val, count, [], input, off, e);
      while left > 0
        invariant ToCome(all, key, val, left, es)
      {
        var more := InsertNext(key, val, left, es, all);
        if !more.Ok? {
          return more.Failure();
        }
        es, left := more.value, left - 1;
      }
      EntriesOver(key, val, left, es, input, off, e);
      got := Ok(Entries(es));
    }

    ghost predicate ToCome(all: Reading<Read>, key: Ty, val: Ty, left: int, es: seq<Entry>)
      reads this
    {
      all == ReadEntries(key, val, left, es, input, off, e)
    }

    method GetFields(fields: Fields, done: seq<Val>) returns (got: Reading<Val>)
      modifies this
      ensures Did(got, ReadFields(fields, done, old(input), old(off), e))
      decreases fields, 3
    {
      match fields
      case NoFields => got := Ok(Record(done));
      case Field(ty, rest) =>
        var v := Get(ty);
        if !v.Ok? {
          return v;
        }
        got := GetFields(rest, done + [v.value]);
    }
  }

  /** Serialize a sample, deserialize what came out: the same sample, if its chars are
      below 256, and the whole buffer has been used. */
  method ThereAndBack(fields: Fields, vals: seq<Val>, e: Endianness) returns (back: Reading<Val>, left: seq<Octet>)
    requires FieldsTyped(fields, vals)
    ensures back.Ok? && left == []
    ensures back == Ok(Record(vals)) <==> FieldCharsFit(fields, vals)
  {
    var s := new Serializer(e);
    s.PutFields(fields, vals);
    var d := new Deserializer(s.out, e);
    StructRoundTrip(fields, vals, e, []);
    assert s.out == Bytes(WriteStruct(fields, vals).pieces, e) + [];
    back := d.GetFields(fields, []);
    left := d.input;
  }
}
