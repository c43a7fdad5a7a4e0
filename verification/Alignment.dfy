/** Which types are aligned in the CDR stream whatever value is written: a condition on the
    type alone. Only where an octet lies modulo 8 matters, and how many octets before it
    __cdr_offset has passed over. */
module Alignments {
  import opened Types
  import opened Octets
  import opened Cdr

  type Rest = n: int | 0 <= n < 8

  /** An offset and a number of uncounted octets, modulo 8. */
  datatype At = At(off: Rest, lag: Rest)

  function Modulo(off: int, lag: int): At {
    At(off % 8, lag % 8)
  }

  ghost function Row(o: Rest, k: nat): (s: set<At>)
    requires k <= 8
    ensures |s| <= k && forall t: At :: t.off == o && t.lag < k ==> t in s
  {
    if k == 0 then {} else Row(o, k - 1) + {At(o, k - 1)}
  }

  ghost function Rows(k: nat): (s: set<At>)
    requires k <= 8
    ensures |s| <= 8 * k && forall t: At :: t.off < k ==> t in s
  {
    if k == 0 then {} else Rows(k - 1) + Row(k - 1, 8)
  }

  ghost function All(): (s: set<At>)
    ensures |s| <= 64 && forall t: At :: t in s
  {
    Rows(8)
  }

  function Below(k: nat): (s: set<int>)
    ensures forall n :: n in s <==> 0 <= n < k
  {
    if k == 0 then {} else Below(k - 1) + {k - 1}
  }

  // ---- where a value of a type can end ----

  function AfterWord(size: nat, s: At): (t: At)
    requires IsWidth(size)
    ensures t.lag == s.lag
  {
    At((s.off + Padding(s.off, size) + size) % 8, s.lag)
  }

  /** `k` octets on, all of them counted. */
  function Moved(s: At, k: int): At {
    At((s.off + k) % 8, s.lag)
  }

  /** After a struct begun at `s` the offset is what it was; `t` is where its fields end. */
  function Resumed(s: At, t: At): At {
    At(s.off, (t.off + t.lag - s.off) % 8)
  }

  /** Where the fields of a struct begun at `s` begin. */
  function Inside(s: At): At {
    At(0, (s.off + s.lag) % 8)
  }

  /** Where a value begun at `s` can end. */
  ghost function After(ty: Ty, s: At): (r: set<At>)
    decreases ty, 1
  {
    match ty
    case Scalar(p) => {AfterWord(Width(p), s)}
    case Text => set k | k in Below(8) :: Moved(AfterWord(4, s), k)
    case Vec(elem) => Close(elem, {AfterWord(4, s)})
    case Array(elem, len) => Times(elem, {s}, len)
    case Map(key, val) => CloseMap(key, val, {AfterWord(4, s)})
    case Nested(fields) => set t | t in AfterFields(fields, Inside(s)) :: Resumed(s, t)
  }

  ghost function AfterFields(fields: Fields, s: At): (r: set<At>)
    decreases fields, 1
  {
    match fields
    case NoFields => {s}
    case Field(ty, rest) => set t, u | t in After(ty, s) && u in AfterFields(rest, t) :: u
  }

  /** One more element, begun anywhere in `ss`. */
  ghost function Step(elem: Ty, ss: set<At>): (r: set<At>)
    decreases elem, 2
  {
    set t, u | t in ss && u in After(elem, t) :: u
  }

  ghost function Times(elem: Ty, ss: set<At>, count: nat): (r: set<At>)
    decreases elem, 3, count
  {
    if count == 0 then ss else Times(elem, Step(elem, ss), count - 1)
  }

  lemma Shrinks<T>(all: set<T>, ss: set<T>, more: set<T>)
    requires ss <= all && more <= all && !(more <= ss)
    ensures all - (ss + more) < all - ss
  {
    var t :| t in more && t !in ss;
    assert t in all - ss && t !in all - (ss + more);
  }

  /** Any number of elements. */
  ghost function Close(elem: Ty, ss: set<At>): (r: set<At>)
    ensures ss <= r
    decreases elem, 3, All() - ss
  {
    hide *;
    var more := Step(elem, ss);
    if more <= ss then ss
    else
      Shrinks(All(), ss, more);
      Close(elem, ss + more)
  }

  ghost function StepEntry(key: Ty, val: Ty, ss: set<At>): (r: set<At>)
    decreases Map(key, val), 0
  {
    Step(val, Step(key, ss))
  }

  ghost function CloseMap(key: Ty, val: Ty, ss: set<At>): (r: set<At>)
    ensures ss <= r
    decreases Map(key, val), 1, All() - ss
  {
    hide *;
    var more := StepEntry(key, val, ss);
    if more <= ss then ss
    else
      Shrinks(All(), ss, more);
      CloseMap(key, val, ss + more)
  }

  // ---- the condition ----

  /** Every number and length prefix of every value begun at `s` is aligned. */
  ghost predicate Fits(ty: Ty, s: At)
    decreases ty, 1
  {
    match ty
    case Scalar(p) => s.lag % Width(p) == 0
    case Text => s.lag % 4 == 0
    case Vec(elem) => s.lag % 4 == 0 && AllFit(elem, Close(elem, {AfterWord(4, s)}))
    case Array(elem, len) => FitTimes(elem, {s}, len)
    case Map(key, val) =>
      && s.lag % 4 == 0
      && AllFit(key, CloseMap(key, val, {AfterWord(4, s)}))
      && AllFit(val, Step(key, CloseMap(key, val, {AfterWord(4, s)})))
    case Nested(fields) => FieldsFit(fields, Inside(s))
  }

  ghost predicate AllFit(elem: Ty, ss: set<At>)
    decreases elem, 2
  {
    forall t :: t in ss ==> Fits(elem, t)
  }

  ghost predicate FitTimes(elem: Ty, ss: set<At>, count: nat)
    decreases elem, 3, count
  {
    count == 0 || (AllFit(elem, ss) && FitTimes(elem, Step(elem, ss), count - 1))
  }

  ghost predicate FieldsFit(fields: Fields, s: At)
    decreases fields, 1
  {
    match fields
    case NoFields => true
    case Field(ty, rest) => Fits(ty, s) && RestFits(rest, After(ty, s))
  }

  ghost predicate RestFits(rest: Fields, ss: set<At>)
    decreases rest, 2
  {
    forall t :: t in ss ==> FieldsFit(rest, t)
  }

  lemma {:induction false} Closed(elem: Ty, ss: set<At>)
    ensures Step(elem, Close(elem, ss)) <= Close(elem, ss)
    decreases All() - ss
  {
    hide All, Step;
    var more := Step(elem, ss);
    if !(more <= ss) {
      Shrinks(All(), ss, more);
      Closed(elem, ss + more);
    }
  }

  lemma {:induction false} ClosedMap(key: Ty, val: Ty, ss: set<At>)
    ensures StepEntry(key, val, CloseMap(key, val, ss)) <= CloseMap(key, val, ss)
    decreases All() - ss
  {
    hide All, StepEntry;
    var more := StepEntry(key, val, ss);
    if !(more <= ss) {
      Shrinks(All(), ss, more);
      ClosedMap(key, val, ss + more);
    }
  }

  // ---- arithmetic modulo 8 ----

  lemma RestMore(size: nat, k: int, r: int)
    requires IsWidth(size)
    ensures (8 * k + r) % size == r % size
  {
    if size == 2 {
      TwoMore(4 * k, r);
    } else if size == 4 {
      FourMore(2 * k, r);
    } else if size == 8 {
      EightMore(k, r);
    }
  }

  /** Modulo a width, a number is what its rest modulo 8 is. */
  lemma RestModulo(size: nat, n: int)
    requires IsWidth(size)
    ensures n % 8 % size == n % size
  {
    RestMore(size, n / 8, n % 8);
  }

  lemma SumModulo(a: int, b: int)
    ensures (a % 8 + b) % 8 == (a + b) % 8 && (a + b % 8) % 8 == (a + b) % 8
  {
    EightMore(a / 8, a % 8 + b);
    EightMore(b / 8, a + b % 8);
  }

  lemma PaddingModulo(off: nat, size: nat)
    requires IsWidth(size)
    ensures Padding(off % 8, size) == Padding(off, size)
  {
    RestModulo(size, off);
  }

  // ---- where values end ----

  /** The end of something written at `off` when `lag` octets before it went uncounted. */
  function EndOf(w: Written, off: nat, lag: int): At {
    Modulo(w.off, lag + Uncounted(w, off))
  }

  lemma WordLands(size: nat, raw: nat, off: nat, lag: int)
    requires IsWidth(size)
    ensures EndOf(WriteWord(size, raw, off), off, lag) == AfterWord(size, Modulo(off, lag))
  {
    hide All, Uncounted, Padding;
    WordAligned(size, raw, off, lag);
    PaddingModulo(off, size);
    SumModulo(off, Padding(off, size) + size);
  }

  lemma ThenLands(a: Written, b: Written, off: nat, lag: int)
    ensures EndOf(Then(a, b), off, lag) == EndOf(b, a.off, lag + Uncounted(a, off))
  {
    ThenAligned(a, b, off, lag);
  }

  lemma PrefixedLands(count: nat, rest: Written, off: nat, lag: int)
    ensures var len := WriteWord(4, count, off);
      EndOf(Then(len, rest), off, lag) == EndOf(rest, len.off, lag) && Modulo(len.off, lag) == AfterWord(4, Modulo(off, lag))
  {
    hide Uncounted, Padding, WriteWord;
    var len := WriteWord(4, count, off);
    WordAligned(4, count, off, lag);
    WordLands(4, count, off, lag);
    ThenLands(len, rest, off, lag);
  }

  lemma TextLands(v: Val, off: nat, lag: int)
    requires Typed(Text, v)
    ensures EndOf(Write(Text, v, off), off, lag) == Moved(AfterWord(4, Modulo(off, lag)), (|v.octets| + 1) % 8)
  {
    hide Uncounted, Padding, AfterWord;
    var len := WriteWord(4, |v.octets| + 1, off);
    TextBodyAligned(v.octets, len.off, lag);
    PrefixedLands(|v.octets| + 1, Written([Plain(v.octets), Word(1, 0)], len.off + |v.octets| + 1), off, lag);
    SumModulo(len.off, |v.octets| + 1);
    SumModulo(len.off % 8, |v.octets| + 1);
  }

  lemma InsideIs(off: int, lag: int)
    ensures Inside(Modulo(off, lag)) == Modulo(0, off + lag)
  {
    SumModulo(off, lag);
    SumModulo(off % 8, lag);
  }

  lemma NestedLands(fields: Fields, v: Val, off: nat, lag: int)
    requires Typed(Nested(fields), v)
    ensures EndOf(Write(Nested(fields), v, off), off, lag)
         == Resumed(Modulo(off, lag), EndOf(WriteFields(fields, v.vals, 0), 0, off + lag))
  {
    hide WriteFields, Size;
    var w := WriteFields(fields, v.vals, 0);
    ResumedIs(off, w.off, off + lag + Uncounted(w, 0));
  }

  lemma ResumedIs(off: int, inner: int, sum: int)
    ensures (inner % 8 + sum % 8 - off % 8) % 8 == (inner + sum - off) % 8
  {
    EightMore(inner / 8 + sum / 8 - off / 8, inner % 8 + sum % 8 - off % 8);
  }

  lemma {:induction false} Lands(ty: Ty, v: Val, off: nat, lag: int)
    requires Typed(ty, v)
    ensures EndOf(Write(ty, v, off), off, lag) in After(ty, Modulo(off, lag))
    decreases ty, 1
  {
    hide EndOf, WriteItems, WriteEntries, WriteFields, AfterWord, Modulo, Moved, Resumed, Inside, Times, Close, CloseMap, AfterFields, Below;
    var s := Modulo(off, lag);
    match ty
    case Scalar(p) => WordLands(Width(p), RawOf(p, v.n), off, lag);
    case Text => TextLands(v, off, lag);
    case Vec(elem) =>
      var at := WriteWord(4, |v.items|, off).off;
      PrefixedLands(|v.items|, WriteItems(elem, v.items, at), off, lag);
      Closed(elem, {AfterWord(4, s)});
      ItemsLand(elem, v.items, at, lag, Close(elem, {AfterWord(4, s)}));
    case Array(elem, len) => TimesLand(elem, v.items, off, lag, {s});
    case Map(key, val) =>
      var at := WriteWord(4, |v.entries|, off).off;
      PrefixedLands(|v.entries|, WriteEntries(key, val, v.entries, at), off, lag);
      ClosedMap(key, val, {AfterWord(4, s)});
      EntriesLand(key, val, v.entries, at, lag, CloseMap(key, val, {AfterWord(4, s)}));
    case Nested(fields) =>
      FieldsLand(fields, v.vals, 0, off + lag);
      NestedLands(fields, v, off, lag);
      InsideIs(off, lag);
  }

  lemma NothingLands(off: nat, lag: int)
    ensures EndOf(Written([], off), off, lag) == Modulo(off, lag)
  {
  }

  lemma InStepSet(elem: Ty, ss: set<At>, s: At, t: At)
    requires s in ss && t in After(elem, s)
    ensures t in Step(elem, ss)
  {
  }

  lemma {:induction false} ItemsLand(elem: Ty, items: seq<Val>, off: nat, lag: int, ss: set<At>)
    requires forall i :: 0 <= i < |items| ==> Typed(elem, items[i])
    requires Modulo(off, lag) in ss && Step(elem, ss) <= ss
    ensures EndOf(WriteItems(elem, items, off), off, lag) in ss
    decreases elem, 2, |items|
  {
    hide EndOf, Uncounted, Write, Modulo, Step, After;
    NothingLands(off, lag);
    if items != [] {
      var first := Write(elem, items[0], off);
      Lands(elem, items[0], off, lag);
      EndIs(first, off, lag);
      InStepSet(elem, ss, Modulo(off, lag), Modulo(first.off, lag + Uncounted(first, off)));
      ItemsLand(elem, items[1..], first.off, lag + Uncounted(first, off), ss);
      ThenLands(first, WriteItems(elem, items[1..], first.off), off, lag);
    }
  }

  lemma EndIs(w: Written, off: nat, lag: int)
    ensures EndOf(w, off, lag) == Modulo(w.off, lag + Uncounted(w, off))
  {
  }

  lemma {:induction false} TimesLand(elem: Ty, items: seq<Val>, off: nat, lag: int, ss: set<At>)
    requires forall i :: 0 <= i < |items| ==> Typed(elem, items[i])
    requires Modulo(off, lag) in ss
    ensures EndOf(WriteItems(elem, items, off), off, lag) in Times(elem, ss, |items|)
    decreases elem, 2, |items|
  {
    hide EndOf, Uncounted, Write, Modulo, Step, After;
    NothingLands(off, lag);
    if items != [] {
      var first := Write(elem, items[0], off);
      Lands(elem, items[0], off, lag);
      EndIs(first, off, lag);
      InStepSet(elem, ss, Modulo(off, lag), Modulo(first.off, lag + Uncounted(first, off)));
      TimesLand(elem, items[1..], first.off, lag + Uncounted(first, off), Step(elem, ss));
      ThenLands(first, WriteItems(elem, items[1..], first.off), off, lag);
    }
  }

  lemma {:induction false} EntriesLand(key: Ty, val: Ty, es: seq<Entry>, off: nat, lag: int, ss: set<At>)
    requires forall i :: 0 <= i < |es| ==> EntryTyped(key, val, es[i])
    requires Modulo(off, lag) in ss && StepEntry(key, val, ss) <= ss
    ensures EndOf(WriteEntries(key, val, es, off), off, lag) in ss
    decreases Map(key, val), 0, |es|
  {
    hide EndOf, Uncounted, Write, Modulo, StepEntry;
    NothingLands(off, lag);
    if es != [] {
      assert EntryTyped(key, val, es[0]);
      var k := Write(key, es[0].key, off);
      var v := Write(val, es[0].val, k.off);
      EntryLands(key, val, es[0], off, lag, ss);
      EntriesLand(key, val, es[1..], v.off, lag + Uncounted(Then(k, v), off), ss);
      ThenLands(Then(k, v), WriteEntries(key, val, es[1..], v.off), off, lag);
    }
  }

  lemma {:induction false} EntryLands(key: Ty, val: Ty, e: Entry, off: nat, lag: int, ss: set<At>)
    requires EntryTyped(key, val, e) && Modulo(off, lag) in ss
    ensures var k := Write(key, e.key, off);
      var w := Then(k, Write(val, e.val, k.off));
      && Modulo(k.off, lag + Uncounted(k, off)) in Step(key, ss)
      && Modulo(w.off, lag + Uncounted(w, off)) in StepEntry(key, val, ss)
    decreases Map(key, val), 0, 0
  {
    hide EndOf, Uncounted, Write, Modulo, Step, After;
    var k := Write(key, e.key, off);
    var lag1 := lag + Uncounted(k, off);
    var v := Write(val, e.val, k.off);
    Lands(key, e.key, off, lag);
    EndIs(k, off, lag);
    InStepSet(key, ss, Modulo(off, lag), Modulo(k.off, lag1));
    Lands(val, e.val, k.off, lag1);
    EndIs(v, k.off, lag1);
    InStepSet(val, Step(key, ss), Modulo(k.off, lag1), Modulo(v.off, lag1 + Uncounted(v, k.off)));
    ThenAligned(k, v, off, lag);
  }

  lemma {:induction false} FieldsLand(fields: Fields, vals: seq<Val>, off: nat, lag: int)
    requires FieldsTyped(fields, vals)
    ensures EndOf(WriteFields(fields, vals, off), off, lag) in AfterFields(fields, Modulo(off, lag))
    decreases fields, 1
  {
    hide EndOf, Uncounted, Write, Modulo;
    NothingLands(off, lag);
    match fields
    case NoFields =>
    case Field(ty, rest) =>
      var first := Write(ty, vals[0], off);
      Lands(ty, vals[0], off, lag);
      EndIs(first, off, lag);
      FieldsLand(rest, vals[1..], first.off, lag + Uncounted(first, off));
      ThenLands(first, WriteFields(rest, vals[1..], first.off), off, lag);
  }

  // ---- what fits is in step ----

  lemma {:induction false} FitsInStep(ty: Ty, v: Val, off: nat, lag: int)
    requires Typed(ty, v) && Fits(ty, Modulo(off, lag))
    ensures InStep(ty, v, off, lag)
    decreases ty, 1
  {
    hide EndOf, WriteItems, WriteEntries, WriteFields, AfterWord, Modulo, Inside, Close, CloseMap, Uncounted, AllFit, FitTimes, FieldsFit,
         ItemsInStep, EntriesInStep, FieldsInStep, Padding;
    var s := Modulo(off, lag);
    LagIs(off, lag);
    match ty
    case Scalar(p) => RestModulo(Width(p), lag);
    case Text => RestModulo(4, lag);
    case Vec(elem) =>
      RestModulo(4, lag);
      var at := WriteWord(4, |v.items|, off).off;
      PrefixedLands(|v.items|, WriteItems(elem, v.items, at), off, lag);
      Closed(elem, {AfterWord(4, s)});
      ItemsFit(elem, v.items, at, lag, Close(elem, {AfterWord(4, s)}));
    case Array(elem, len) => TimesFit(elem, v.items, off, lag, {s});
    case Map(key, val) =>
      RestModulo(4, lag);
      var at := WriteWord(4, |v.entries|, off).off;
      PrefixedLands(|v.entries|, WriteEntries(key, val, v.entries, at), off, lag);
      ClosedMap(key, val, {AfterWord(4, s)});
      EntriesFit(key, val, v.entries, at, lag, CloseMap(key, val, {AfterWord(4, s)}));
    case Nested(fields) =>
      InsideIs(off, lag);
      FieldsFitInStep(fields, v.vals, 0, off + lag);
  }

  lemma LagIs(off: int, lag: int)
    ensures Modulo(off, lag).lag == lag % 8
  {
  }

  lemma FitsThere(elem: Ty, ss: set<At>, s: At)
    requires AllFit(elem, ss) && s in ss
    ensures Fits(elem, s)
  {
  }

  lemma {:induction false} ItemsFit(elem: Ty, items: seq<Val>, off: nat, lag: int, ss: set<At>)
    requires forall i :: 0 <= i < |items| ==> Typed(elem, items[i])
    requires Modulo(off, lag) in ss && Step(elem, ss) <= ss && AllFit(elem, ss)
    ensures ItemsInStep(elem, items, off, lag)
    decreases elem, 2, |items|
  {
    hide EndOf, Uncounted, Write, Modulo, InStep, Fits, Step, After, AllFit;
    if items != [] {
      var first := Write(elem, items[0], off);
      FitsThere(elem, ss, Modulo(off, lag));
      FitsInStep(elem, items[0], off, lag);
      Lands(elem, items[0], off, lag);
      EndIs(first, off, lag);
      InStepSet(elem, ss, Modulo(off, lag), Modulo(first.off, lag + Uncounted(first, off)));
      ItemsFit(elem, items[1..], first.off, lag + Uncounted(first, off), ss);
    }
  }

  lemma FitTimesMore(elem: Ty, ss: set<At>, count: nat)
    requires FitTimes(elem, ss, count) && count > 0
    ensures FitTimes(elem, Step(elem, ss), count - 1) && forall s :: s in ss ==> Fits(elem, s)
  {
  }

  lemma {:induction false} TimesFit(elem: Ty, items: seq<Val>, off: nat, lag: int, ss: set<At>)
    requires forall i :: 0 <= i < |items| ==> Typed(elem, items[i])
    requires Modulo(off, lag) in ss && FitTimes(elem, ss, |items|)
    ensures ItemsInStep(elem, items, off, lag)
    decreases elem, 2, |items|
  {
    hide EndOf, Uncounted, Write, Modulo, InStep, Fits, Step, After, FitTimes;
    if items != [] {
      var first := Write(elem, items[0], off);
      FitTimesMore(elem, ss, |items|);
      FitsInStep(elem, items[0], off, lag);
      Lands(elem, items[0], off, lag);
      EndIs(first, off, lag);
      InStepSet(elem, ss, Modulo(off, lag), Modulo(first.off, lag + Uncounted(first, off)));
      TimesFit(elem, items[1..], first.off, lag + Uncounted(first, off), Step(elem, ss));
    }
  }

  lemma {:induction false} EntriesFit(key: Ty, val: Ty, es: seq<Entry>, off: nat, lag: int, ss: set<At>)
    requires forall i :: 0 <= i < |es| ==> EntryTyped(key, val, es[i])
    requires Modulo(off, lag) in ss && StepEntry(key, val, ss) <= ss && AllFit(key, ss) && AllFit(val, Step(key, ss))
    ensures EntriesInStep(key, val, es, off, lag)
    decreases Map(key, val), 0, |es|
  {
    hide EndOf, Uncounted, Write, Modulo, InStep, Fits, Step, StepEntry, AllFit;
    if es != [] {
      assert EntryTyped(key, val, es[0]);
      var k := Write(key, es[0].key, off);
      var lag1 := lag + Uncounted(k, off);
      var v := Write(val, es[0].val, k.off);
      EntryLands(key, val, es[0], off, lag, ss);
      FitsThere(key, ss, Modulo(off, lag));
      FitsThere(val, Step(key, ss), Modulo(k.off, lag1));
      FitsInStep(key, es[0].key, off, lag);
      FitsInStep(val, es[0].val, k.off, lag1);
      ThenAligned(k, v, off, lag);
      EntriesFit(key, val, es[1..], v.off, lag1 + Uncounted(v, k.off), ss);
    }
  }

  lemma {:induction false} FieldsFitInStep(fields: Fields, vals: seq<Val>, off: nat, lag: int)
    requires FieldsTyped(fields, vals) && FieldsFit(fields, Modulo(off, lag))
    ensures FieldsInStep(fields, vals, off, lag)
    decreases fields, 1
  {
    hide EndOf, Uncounted, Write, Modulo, InStep, Fits;
    match fields
    case NoFields =>
    case Field(ty, rest) =>
      var first := Write(ty, vals[0], off);
      FitsInStep(ty, vals[0], off, lag);
      Lands(ty, vals[0], off, lag);
      EndIs(first, off, lag);
      FieldsFitInStep(rest, vals[1..], first.off, lag + Uncounted(first, off));
  }

  // ---- what does not fit is out of step for some value ----

  predicate NoMaps(ty: Ty) {
    match ty
    case Scalar(_) | Text => true
    case Vec(elem) => NoMaps(elem)
    case Array(elem, _) => NoMaps(elem)
    case Map(_, _) => false
    case Nested(fields) => NoMapsIn(fields)
  }

  predicate NoMapsIn(fields: Fields) {
    match fields
    case NoFields => true
    case Field(ty, rest) => NoMaps(ty) && NoMapsIn(rest)
  }

  lemma {:induction false} SomeValue(ty: Ty) returns (v: Val)
    ensures Typed(ty, v)
    decreases ty
  {
    match ty
    case Scalar(p) =>
      Powers();
      v := Number(0);
    case Text => v := Str([]);
    case Vec(elem) => v := Items([]);
    case Array(elem, len) =>
      var one := SomeValue(elem);
      v := Items(seq(len, _ => one));
    case Map(key, val) => v := Entries([]);
    case Nested(fields) =>
      var vals := SomeFields(fields);
      v := Record(vals);
  }

  lemma {:induction false} SomeFields(fields: Fields) returns (vals: seq<Val>)
    ensures FieldsTyped(fields, vals)
    decreases fields
  {
    match fields
    case NoFields => vals := [];
    case Field(ty, rest) =>
      var v := SomeValue(ty);
      var more := SomeFields(rest);
      vals := [v] + more;
      assert vals[1..] == more;
  }

  function Letters(k: nat): seq<Octet> {
    if k == 0 then [] else [0x61] + Letters(k - 1)
  }

  lemma {:induction false} LettersAreText(k: nat)
    ensures IsUtf8(Letters(k)) && |Letters(k)| == k
  {
    if k > 0 {
      LettersAreText(k - 1);
      assert PointLength(Letters(k)) == 1 && Letters(k)[1..] == Letters(k - 1);
    }
  }

  /** A way through the places where elements of a list can begin and end. */
  ghost predicate IsPath(elem: Ty, p: seq<At>) {
    p != [] && forall i :: 0 <= i < |p| - 1 ==> CanFollow(elem, p[i], p[i + 1])
  }

  ghost predicate CanFollow(elem: Ty, s: At, t: At) {
    t in After(elem, s)
  }

  lemma {:induction false} SmallerSize<T>(a: set<T>, b: set<T>)
    requires a < b
    ensures |a| < |b|
  {
    var t :| t in b && t !in a;
    assert a <= b - {t};
    SubsetSize(a, b - {t});
  }

  lemma {:induction false} SubsetSize<T>(a: set<T>, b: set<T>)
    requires a <= b
    ensures |a| <= |b|
    decreases |a|
  {
    if a != {} {
      var t :| t in a;
      SubsetSize(a - {t}, b - {t});
    }
  }

  lemma OneEarlier(elem: Ty, s: At, p: seq<At>)
    requires IsPath(elem, p) && CanFollow(elem, s, p[0])
    ensures IsPath(elem, [s] + p) && ([s] + p)[|p|] == p[|p| - 1]
  {
    hide CanFollow;
    var q := [s] + p;
    forall i | 0 <= i < |q| - 1
      ensures CanFollow(elem, q[i], q[i + 1])
    {
      if i > 0 {
        assert q[i] == p[i - 1] && q[i + 1] == p[i];
      }
    }
  }

  lemma Before(elem: Ty, ss: set<At>, t: At) returns (s: At)
    requires t in Step(elem, ss)
    ensures s in ss && CanFollow(elem, s, t)
  {
    s :| s in ss && t in After(elem, s);
  }

  lemma {:induction false} ClosePath(elem: Ty, ss: set<At>, t: At) returns (p: seq<At>)
    requires t in Close(elem, ss)
    ensures IsPath(elem, p) && p[0] in ss && p[|p| - 1] == t && |p| <= 1 + |All() - ss|
    decreases All() - ss
  {
    hide All, IsPath, Step, After;
    var more := Step(elem, ss);
    if more <= ss {
      p := [t];
      OnePlace(elem, t);
    } else {
      Shrinks(All(), ss, more);
      p := ClosePath(elem, ss + more, t);
      SmallerSize(All() - (ss + more), All() - ss);
      PathStarts(elem, p);
      if p[0] !in ss {
        var s := Before(elem, ss, p[0]);
        OneEarlier(elem, s, p);
        p := [s] + p;
      }
    }
  }

  lemma OnePlace(elem: Ty, t: At)
    ensures IsPath(elem, [t])
  {
  }

  lemma PathStarts(elem: Ty, p: seq<At>)
    requires IsPath(elem, p)
    ensures p != []
  {
  }

  lemma {:induction false} TimesPath(elem: Ty, ss: set<At>, count: nat, t: At) returns (p: seq<At>)
    requires t in Times(elem, ss, count)
    ensures IsPath(elem, p) && p[0] in ss && p[|p| - 1] == t && |p| == count + 1
    decreases count
  {
    hide IsPath;
    if count == 0 {
      p := [t];
      OnePlace(elem, t);
    } else {
      p := TimesPath(elem, Step(elem, ss), count - 1, t);
      PathStarts(elem, p);
      var s := Before(elem, ss, p[0]);
      OneEarlier(elem, s, p);
      p := [s] + p;
    }
  }

  ghost predicate AllTyped(elem: Ty, items: seq<Val>) {
    forall i :: 0 <= i < |items| ==> Typed(elem, items[i])
  }

  lemma OneMoreTyped(elem: Ty, v: Val, items: seq<Val>)
    requires Typed(elem, v) && AllTyped(elem, items)
    ensures AllTyped(elem, [v] + items) && ([v] + items)[1..] == items
  {
  }

  lemma RestOfPath(elem: Ty, p: seq<At>)
    requires IsPath(elem, p) && |p| > 1
    ensures IsPath(elem, p[1..]) && p[1] in After(elem, p[0])
  {
    var q := p[1..];
    assert CanFollow(elem, p[0], p[0 + 1]);
    forall i | 0 <= i < |q| - 1
      ensures CanFollow(elem, q[i], q[i + 1])
    {
      assert CanFollow(elem, p[i + 1], p[i + 1 + 1]);
    }
  }

  /** Every place a value can end is where some value ends. */
  lemma {:induction false} Reach(ty: Ty, off: nat, lag: int, t: At) returns (v: Val)
    requires NoMaps(ty) && t in After(ty, Modulo(off, lag))
    ensures Typed(ty, v) && EndOf(Write(ty, v, off), off, lag) == t
    decreases ty, 1, 0
  {
    hide EndOf, WriteItems, WriteFields, AfterWord, Modulo, Moved, Resumed, Inside, Times, Close, AfterFields, Padding, Uncounted;
    var s := Modulo(off, lag);
    match ty
    case Scalar(p) =>
      Powers();
      v := Number(0);
      WordLands(Width(p), RawOf(p, 0), off, lag);
    case Text => v := ReachText(off, lag, t);
    case Vec(elem) => v := ReachVec(elem, off, lag, t);
    case Array(elem, len) =>
      var p := TimesPath(elem, {s}, len, t);
      var items := Walk(elem, off, lag, p);
      v := Items(items);
    case Nested(fields) =>
      var u :| u in AfterFields(fields, Inside(s)) && t == Resumed(s, u);
      InsideIs(off, lag);
      var vals := ReachFields(fields, 0, off + lag, u);
      v := Record(vals);
      NestedLands(fields, v, off, lag);
  }

  lemma ReachText(off: nat, lag: int, t: At) returns (v: Val)
    requires t in After(Text, Modulo(off, lag))
    ensures Typed(Text, v) && EndOf(Write(Text, v, off), off, lag) == t
  {
    hide EndOf, AfterWord, Modulo, Moved, Letters, IsUtf8;
    var k :| k in Below(8) && Moved(AfterWord(4, Modulo(off, lag)), k) == t;
    var n := if k == 0 then 7 else k - 1;
    LettersAreText(n);
    v := Str(Letters(n));
    assert (n + 1) % 8 == k;
    TextLands(v, off, lag);
  }

  /** The places after a length prefix lead on in a few steps. */
  lemma VecPath(elem: Ty, s: At, t: At) returns (p: seq<At>)
    requires t in Close(elem, {s})
    ensures IsPath(elem, p) && p[0] == s && p[|p| - 1] == t && |p| <= 65
  {
    hide IsPath, Close;
    p := ClosePath(elem, {s}, t);
    PathStarts(elem, p);
    SubsetSize(All() - {s}, All());
  }

  lemma {:induction false} ReachVec(elem: Ty, off: nat, lag: int, t: At) returns (v: Val)
    requires NoMaps(elem) && t in After(Vec(elem), Modulo(off, lag))
    ensures Typed(Vec(elem), v) && EndOf(Write(Vec(elem), v, off), off, lag) == t
    decreases Vec(elem), 0, 0
  {
    hide EndOf, WriteItems, AfterWord, Modulo, Close, WriteWord, IsPath;
    var p := VecPath(elem, AfterWord(4, Modulo(off, lag)), t);
    PathStarts(elem, p);
    PrefixedLands(0, Written([], 0), off, lag);
    var at := WriteWord(4, 0, off).off;
    var items := Walk(elem, at, lag, p);
    SamePrefix(|items|, off);
    v := Items(items);
    PrefixedLands(|items|, WriteItems(elem, items, at), off, lag);
  }

  lemma SamePrefix(count: nat, off: nat)
    ensures WriteWord(4, count, off).off == WriteWord(4, 0, off).off
  {
  }

  lemma {:induction false} Walk(elem: Ty, off: nat, lag: int, p: seq<At>) returns (items: seq<Val>)
    requires NoMaps(elem) && IsPath(elem, p) && p[0] == Modulo(off, lag)
    ensures |items| == |p| - 1 && AllTyped(elem, items)
    ensures EndOf(WriteItems(elem, items, off), off, lag) == p[|p| - 1]
    decreases elem, 2, |p|
  {
    hide EndOf, Uncounted, Write, Modulo, IsPath, After;
    PathStarts(elem, p);
    if |p| == 1 {
      items := [];
      NothingLands(off, lag);
    } else {
      RestOfPath(elem, p);
      var v := Reach(elem, off, lag, p[1]);
      var first := Write(elem, v, off);
      EndIs(first, off, lag);
      var rest := Walk(elem, first.off, lag + Uncounted(first, off), p[1..]);
      OneMoreTyped(elem, v, rest);
      items := [v] + rest;
      ThenLands(first, WriteItems(elem, rest, first.off), off, lag);
    }
  }

  lemma {:induction false} ReachFields(fields: Fields, off: nat, lag: int, t: At) returns (vals: seq<Val>)
    requires NoMapsIn(fields) && t in AfterFields(fields, Modulo(off, lag))
    ensures FieldsTyped(fields, vals) && EndOf(WriteFields(fields, vals, off), off, lag) == t
    decreases fields, 1, 0
  {
    hide EndOf, Uncounted, Write, Modulo, After;
    match fields
    case NoFields =>
      vals := [];
      NothingLands(off, lag);
    case Field(ty, rest) =>
      var u :| u in After(ty, Modulo(off, lag)) && t in AfterFields(rest, u);
      var v := Reach(ty, off, lag, u);
      var first := Write(ty, v, off);
      EndIs(first, off, lag);
      var more := ReachFields(rest, first.off, lag + Uncounted(first, off), t);
      vals := [v] + more;
      assert vals[1..] == more;
      ThenLands(first, WriteFields(rest, more, first.off), off, lag);
  }

  /** What does not fit is out of step for some value. */
  lemma {:induction false} Misfit(ty: Ty, off: nat, lag: int) returns (v: Val)
    requires NoMaps(ty) && !Fits(ty, Modulo(off, lag))
    ensures Typed(ty, v) && !InStep(ty, v, off, lag)
    decreases ty, 1, 0
  {
    hide EndOf, WriteItems, WriteFields, AfterWord, Modulo, Inside, Times, Close, FitTimes, FieldsFit, AllFit, Padding, Uncounted,
         ItemsInStep, FieldsInStep;
    var s := Modulo(off, lag);
    LagIs(off, lag);
    match ty
    case Scalar(p) =>
      Powers();
      RestModulo(Width(p), lag);
      v := Number(0);
    case Text =>
      RestModulo(4, lag);
      v := Str([]);
    case Vec(elem) =>
      RestModulo(4, lag);
      v := MisfitVec(elem, off, lag);
    case Array(elem, len) => v := MisfitArray(elem, len, off, lag);
    case Nested(fields) =>
      InsideIs(off, lag);
      var vals := MisfitFields(fields, 0, off + lag);
      v := Record(vals);
  }

  lemma {:induction false} MisfitVec(elem: Ty, off: nat, lag: int) returns (v: Val)
    requires NoMaps(elem)
    requires lag % 4 != 0 || !AllFit(elem, Close(elem, {AfterWord(4, Modulo(off, lag))}))
    ensures Typed(Vec(elem), v) && !InStep(Vec(elem), v, off, lag)
    decreases Vec(elem), 0, 0
  {
    hide AfterWord, Modulo, Close, WriteWord, IsPath, Fits, ItemsInStep;
    if lag % 4 != 0 {
      v := Items([]);
    } else {
      var t :| t in Close(elem, {AfterWord(4, Modulo(off, lag))}) && !Fits(elem, t);
      var p := VecPath(elem, AfterWord(4, Modulo(off, lag)), t);
      PathStarts(elem, p);
      PrefixedLands(0, Written([], 0), off, lag);
      var at := WriteWord(4, 0, off).off;
      var items := MisfitWalk(elem, at, lag, p);
      SamePrefix(|items|, off);
      v := Items(items);
    }
  }

  lemma {:induction false} MisfitWalk(elem: Ty, off: nat, lag: int, p: seq<At>) returns (items: seq<Val>)
    requires NoMaps(elem) && IsPath(elem, p) && p[0] == Modulo(off, lag) && !Fits(elem, p[|p| - 1])
    ensures |items| == |p| && AllTyped(elem, items) && !ItemsInStep(elem, items, off, lag)
    decreases elem, 2, |p|
  {
    hide EndOf, Uncounted, Write, Modulo, IsPath, After, Fits, InStep;
    PathStarts(elem, p);
    if |p| == 1 {
      var v := Misfit(elem, off, lag);
      items := [v];
    } else {
      RestOfPath(elem, p);
      var v := Reach(elem, off, lag, p[1]);
      var first := Write(elem, v, off);
      EndIs(first, off, lag);
      var rest := MisfitWalk(elem, first.off, lag + Uncounted(first, off), p[1..]);
      OneMoreTyped(elem, v, rest);
      items := [v] + rest;
    }
  }

  /** Somewhere among `count` elements there is a place that does not fit. */
  lemma {:induction false} MisfitPath(elem: Ty, ss: set<At>, count: nat) returns (p: seq<At>)
    requires !FitTimes(elem, ss, count)
    ensures IsPath(elem, p) && p[0] in ss && !Fits(elem, p[|p| - 1]) && |p| <= count
    decreases count
  {
    hide IsPath, Fits;
    if t :| t in ss && !Fits(elem, t) {
      p := [t];
      OnePlace(elem, t);
    } else {
      p := MisfitPath(elem, Step(elem, ss), count - 1);
      PathStarts(elem, p);
      var s := Before(elem, ss, p[0]);
      OneEarlier(elem, s, p);
      p := [s] + p;
    }
  }

  lemma {:induction false} PrefixInStep(elem: Ty, a: seq<Val>, b: seq<Val>, off: nat, lag: int)
    requires AllTyped(elem, a + b) && AllTyped(elem, a) && ItemsInStep(elem, a + b, off, lag)
    ensures ItemsInStep(elem, a, off, lag)
    decreases |a|
  {
    hide Uncounted, Write, InStep;
    if a != [] {
      var first := Write(elem, a[0], off);
      assert (a + b)[0] == a[0] && (a + b)[1..] == a[1..] + b;
      PrefixInStep(elem, a[1..], b, first.off, lag + Uncounted(first, off));
    }
  }

  lemma {:induction false} MisfitArray(elem: Ty, len: nat, off: nat, lag: int) returns (v: Val)
    requires NoMaps(elem) && !FitTimes(elem, {Modulo(off, lag)}, len)
    ensures Typed(Array(elem, len), v) && !InStep(Array(elem, len), v, off, lag)
    decreases Array(elem, len), 0, 0
  {
    hide Modulo, IsPath, Fits, ItemsInStep, FitTimes;
    var p := MisfitPath(elem, {Modulo(off, lag)}, len);
    PathStarts(elem, p);
    var items := MisfitWalk(elem, off, lag, p);
    var one := SomeValue(elem);
    var more := seq(len - |items|, _ => one);
    assert AllTyped(elem, items + more);
    if ItemsInStep(elem, items + more, off, lag) {
      PrefixInStep(elem, items, more, off, lag);
    }
    v := Items(items + more);
  }

  lemma {:induction false} MisfitFields(fields: Fields, off: nat, lag: int) returns (vals: seq<Val>)
    requires NoMapsIn(fields) && !FieldsFit(fields, Modulo(off, lag))
    ensures FieldsTyped(fields, vals) && !FieldsInStep(fields, vals, off, lag)
    decreases fields, 1, 0
  {
    hide EndOf, Uncounted, Write, Modulo, After, Fits, InStep;
    match fields
    case Field(ty, rest) =>
      var s := Modulo(off, lag);
      if !Fits(ty, s) {
        var v := Misfit(ty, off, lag);
        var more := SomeFields(rest);
        vals := [v] + more;
        assert vals[1..] == more;
      } else {
        var t :| t in After(ty, s) && !FieldsFit(rest, t);
        var v := Reach(ty, off, lag, t);
        var first := Write(ty, v, off);
        EndIs(first, off, lag);
        var more := MisfitFields(rest, first.off, lag + Uncounted(first, off));
        vals := [v] + more;
        assert vals[1..] == more;
      }
  }

  // ---- the theorem ----

  /** Every sample of the struct type is aligned. */
  ghost predicate AlwaysAligned(fields: Fields) {
    forall vals :: FieldsTyped(fields, vals) ==> Aligned(WriteStruct(fields, vals).pieces, 0)
  }

  /** The condition on the type is enough for every sample to be aligned, and without maps it
      is exact; the keys of a map differ, so that there may not be as many entries as it
      would take. */
  lemma AlignedByType(fields: Fields)
    ensures FieldsFit(fields, At(0, 0)) ==> AlwaysAligned(fields)
    ensures NoMapsIn(fields) ==> (AlwaysAligned(fields) <==> FieldsFit(fields, At(0, 0)))
  {
    hide Aligned, FieldsFit, FieldsInStep, WriteFields;
    assert Modulo(0, 0) == At(0, 0);
    if FieldsFit(fields, At(0, 0)) {
      forall vals | FieldsTyped(fields, vals)
        ensures Aligned(WriteStruct(fields, vals).pieces, 0)
      {
        FieldsFitInStep(fields, vals, 0, 0);
        StructAligned(fields, vals, LittleEndian);
      }
    } else if NoMapsIn(fields) {
      var vals := MisfitFields(fields, 0, 0);
      StructAligned(fields, vals, LittleEndian);
      assert FieldsTyped(fields, vals) && !Aligned(WriteStruct(fields, vals).pieces, 0);
    }
  }
}
