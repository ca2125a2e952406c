/** The signature parser as functions on the unread part of the blob, and the
    proof that it inverts the grammar's printer. */
module SigParsing {
  import opened Wrappers
  import opened Bytes
  import opened SigGrammar

  /** Notifications given and bytes left. */
  datatype Parsed = Parsed(events: seq<Event>, rest: seq<byte>)

  type Result = Option<Parsed>

  function Then(es: seq<Event>, r: Result): Result {
    if r.None? then None else Some(Parsed(es + r.value.events, r.value.rest))
  }

  function Finish(r: Result, e: Event): Result {
    if r.None? then None else Some(Parsed(r.value.events + [e], r.value.rest))
  }

  function ReadNumber(s: seq<byte>): (r: Option<(nat, seq<byte>)>)
    ensures r.Some? ==> |r.value.1| < |s|
  {
    if s == [] || s[0] == 0xff then None
    else if s[0] < 0x80 then Some((s[0], s[1..]))
    else if |s| < 2 then None
    else if s[0] < 0xC0 then Some(((s[0] as int - 0x80) * 0x100 + s[1] as int, s[2..]))
    else if s[0] >= 0xE0 || |s| < 4 then None
    else Some(((s[0] as int - 0xC0) * 0x100_0000 + s[1] as int * 0x1_0000 + s[2] as int * 0x100 + s[3] as int, s[4..]))
  }

  /** The number of a token is read by another routine, which takes every lead byte from 0xC0 on
      for one of four bytes. */
  function ReadCoded(s: seq<byte>): (r: Option<(nat, seq<byte>)>)
    ensures r.Some? ==> |r.value.1| < |s|
    ensures ReadNumber(s).Some? ==> r == ReadNumber(s)
  {
    if s == [] then None
    else if s[0] < 0x80 then Some((s[0], s[1..]))
    else if |s| < 2 then None
    else if s[0] < 0xC0 then Some((s[0] as int % 0x40 * 0x100 + s[1] as int, s[2..]))
    else if |s| < 4 then None
    else Some((s[0] as int % 0x20 * 0x100_0000 + s[1] as int * 0x1_0000 + s[2] as int * 0x100 + s[3] as int, s[4..]))
  }

  function ReadToken(s: seq<byte>): (r: Option<(Token, seq<byte>)>)
    ensures r.Some? ==> |r.value.1| < |s|
  {
    var n := ReadCoded(s);
    if n.None? then None else Some((Token(n.value.0 % 4, n.value.0 / 4), n.value.1))
  }

  function ParseMods(s: seq<byte>): (r: Result)
    ensures r.Some? ==> |r.value.rest| <= |s|
    decreases |s|
  {
    if s == [] || (s[0] != CMOD_OPT && s[0] != CMOD_REQD) then Some(Parsed([], s))
    else
      var t := ReadToken(s[1..]);
      if t.None? then None else Then([CustomModSeen(s[0], t.value.0)], ParseMods(t.value.1))
  }

  function ParseModsOrConstraint(s: seq<byte>): (r: Result)
    ensures r.Some? ==> |r.value.rest| <= |s|
    decreases |s|
  {
    if s == [] then Some(Parsed([], s))
    else if s[0] == CMOD_OPT || s[0] == CMOD_REQD then
      var t := ReadToken(s[1..]);
      if t.None? then None else Then([CustomModSeen(s[0], t.value.0)], ParseModsOrConstraint(t.value.1))
    else if s[0] == PINNED then Then([Constraint(PINNED)], ParseModsOrConstraint(s[1..]))
    else Some(Parsed([], s))
  }

  function ParseNumbers(s: seq<byte>, n: nat, lo: bool): (r: Result)
    ensures r.Some? ==> |r.value.rest| <= |s|
    decreases n
  {
    if n == 0 then Some(Parsed([], s))
    else
      var v := ReadNumber(s);
      if v.None? then None
      else Then([if lo then LoBound(v.value.0) else Size(v.value.0)], ParseNumbers(v.value.1, n - 1, lo))
  }

  function ParseArrayShape(s: seq<byte>): (r: Result)
    ensures r.Some? ==> |r.value.rest| <= |s|
  {
    var rank := ReadNumber(s);
    if rank.None? then None else
    var numSizes := ReadNumber(rank.value.1);
    if numSizes.None? then None else
    var sizes := ParseNumbers(numSizes.value.1, numSizes.value.0, false);
    if sizes.None? then None else
    var numLo := ReadNumber(sizes.value.rest);
    if numLo.None? then None else
    var los := ParseNumbers(numLo.value.1, numLo.value.0, true);
    Finish(Then([Open(InArrayShape), Rank(rank.value.0), NumSizes(numSizes.value.0)] + sizes.value.events
                + [NumLoBounds(numLo.value.0)], los),
           End(InArrayShape))
  }

  function ParseType(s: seq<byte>): (r: Result)
    ensures r.Some? ==> |r.value.rest| < |s|
    decreases |s|, 1
  {
    if s == [] then None else Finish(Then([Open(InType)], ParseTypeInner(s[0], s[1..])), End(InType))
  }

  /** Behind the element type byte; unknown element types are passed over. */
  function ParseTypeInner(e: byte, s: seq<byte>): (r: Result)
    ensures r.Some? ==> |r.value.rest| <= |s|
    decreases |s|, 3
  {
    if IsSimple(e) then Some(Parsed([TypeSimple(e)], s))
    else if e == PTR then
      var mods := ParseMods(s);
      if mods.None? || mods.value.rest == [] then None
      else if mods.value.rest[0] == VOID then Some(Parsed([TypePointer] + mods.value.events + [VoidSeen], mods.value.rest[1..]))
      else Then([TypePointer] + mods.value.events, ParseType(mods.value.rest))
    else if e == CLASS then
      var t := ReadToken(s);
      if t.None? then None else Some(Parsed([TypeClass, TypeDefOrRef(t.value.0)], t.value.1))
    else if e == VALUETYPE then
      var t := ReadToken(s);
      if t.None? then None else Some(Parsed([TypeValueType, TypeDefOrRef(t.value.0)], t.value.1))
    else if e == FNPTR then
      if s == [] then None else Then([TypeFunctionPointer], ParseMethod(s[0], s[1..]))
    else if e == ARRAY then
      var u := ParseType(s);
      if u.None? then None else Then([TypeArray] + u.value.events, ParseArrayShape(u.value.rest))
    else if e == SZARRAY then
      var mods := ParseMods(s);
      if mods.None? then None else Then([TypeSzArray] + mods.value.events, ParseType(mods.value.rest))
    else if e == GENERICINST then
      if s == [] || (s[0] != CLASS && s[0] != VALUETYPE) then None else
      var t := ReadToken(s[1..]);
      if t.None? then None else
      var n := ReadNumber(t.value.1);
      if n.None? then None
      else Then([TypeGenericInst(s[0], t.value.0, n.value.0)], ParseTypes(n.value.1, n.value.0))
    else if e == VAR then
      var n := ReadNumber(s);
      if n.None? then None else Some(Parsed([TypeGenericTypeVariable(n.value.0)], n.value.1))
    else if e == MVAR then
      var n := ReadNumber(s);
      if n.None? then None else Some(Parsed([TypeGenericMemberVariable(n.value.0)], n.value.1))
    else Some(Parsed([], s))
  }

  function ParseTypes(s: seq<byte>, n: nat): (r: Result)
    ensures r.Some? ==> |r.value.rest| <= |s|
    decreases |s|, 2, n
  {
    if n == 0 then Some(Parsed([], s))
    else
      var t := ParseType(s);
      if t.None? then None else Then(t.value.events, ParseTypes(t.value.rest, n - 1))
  }

  /** Behind the custom modifiers of a parameter or, with void allowed, a return type. */
  function ParseSlot(s: seq<byte>, ret: bool): (r: Result)
    ensures r.Some? ==> |r.value.rest| < |s|
    decreases |s|, 2
  {
    if s == [] then None
    else if s[0] == TYPEDBYREF then Some(Parsed([TypedByrefSeen], s[1..]))
    else if ret && s[0] == VOID then Some(Parsed([VoidSeen], s[1..]))
    else if s[0] == BYREF then Then([ByrefSeen], ParseType(s[1..]))
    else ParseType(s)
  }

  function ParseParam(s: seq<byte>, ret: bool): (r: Result)
    ensures r.Some? ==> |r.value.rest| < |s|
    decreases |s|, 3
  {
    var k := if ret then InRetType else InParam;
    var mods := ParseMods(s);
    if mods.None? then None
    else Finish(Then([Open(k)] + mods.value.events, ParseSlot(mods.value.rest, ret)), End(k))
  }

  function ParseParams(s: seq<byte>, n: nat, seen: bool): (r: Result)
    ensures r.Some? ==> |r.value.rest| <= |s|
    decreases |s|, 4, n
  {
    if n == 0 then Some(Parsed([], s))
    else if s == [] then None
    else if s[0] == SENTINEL then
      if seen then None else
      var p := ParseParam(s[1..], false);
      if p.None? then None else Then([Sentinel] + p.value.events, ParseParams(p.value.rest, n - 1, true))
    else
      var p := ParseParam(s, false);
      if p.None? then None else Then(p.value.events, ParseParams(p.value.rest, n - 1, seen))
  }

  function ParseMethod(e: byte, s: seq<byte>): (r: Result)
    ensures r.Some? ==> |r.value.rest| <= |s|
    decreases |s|, 5
  {
    if IsGeneric(e) then
      var g := ReadNumber(s);
      if g.None? then None
      else Finish(Then([Begin(InMethod, e), GenericParamCount(g.value.0)], ParseSignature(g.value.1)), End(InMethod))
    else Finish(Then([Begin(InMethod, e)], ParseSignature(s)), End(InMethod))
  }

  /** Parameter count, return type and parameters. */
  function ParseSignature(s: seq<byte>): (r: Result)
    ensures r.Some? ==> |r.value.rest| <= |s|
    decreases |s|, 4
  {
    var n := ReadNumber(s);
    if n.None? then None else
    var ret := ParseParam(n.value.1, true);
    if ret.None? then None
    else Then([Count(InParam, n.value.0)] + ret.value.events, ParseParams(ret.value.rest, n.value.0, false))
  }

  /** Parameters of a property: no sentinel is looked for. */
  function ParsePropertyParams(s: seq<byte>, n: nat): Result
    decreases n
  {
    if n == 0 then Some(Parsed([], s))
    else
      var p := ParseParam(s, false);
      if p.None? then None else Then(p.value.events, ParsePropertyParams(p.value.rest, n - 1))
  }

  function ParseLocal(s: seq<byte>): Result {
    if s == [] then None
    else if s[0] == TYPEDBYREF then Some(Parsed([Open(InLocal), TypedByrefSeen, End(InLocal)], s[1..]))
    else
      var mods := ParseModsOrConstraint(s);
      if mods.None? || mods.value.rest == [] then None
      else if mods.value.rest[0] == BYREF then
        Finish(Then([Open(InLocal)] + mods.value.events + [ByrefSeen], ParseType(mods.value.rest[1..])), End(InLocal))
      else Finish(Then([Open(InLocal)] + mods.value.events, ParseType(mods.value.rest)), End(InLocal))
  }

  function ParseLocalList(s: seq<byte>, n: nat): Result
    decreases n
  {
    if n == 0 then Some(Parsed([], s))
    else
      var l := ParseLocal(s);
      if l.None? then None else Then(l.value.events, ParseLocalList(l.value.rest, n - 1))
  }

  function FieldPart(e: byte, s: seq<byte>): Result {
    var mods := ParseMods(s);
    if mods.None? then None
    else Finish(Then([Begin(InField, e)] + mods.value.events, ParseType(mods.value.rest)), End(InField))
  }

  function LocalsPart(e: byte, s: seq<byte>): Result {
    var n := ReadNumber(s);
    if n.None? then None
    else Finish(Then([Begin(InLocals, e), Count(InLocal, n.value.0)], ParseLocalList(n.value.1, n.value.0)), End(InLocals))
  }

  function PropertyPart(e: byte, s: seq<byte>): Result {
    var n := ReadNumber(s);
    if n.None? then None else
    var mods := ParseMods(n.value.1);
    if mods.None? then None else
    var u := ParseType(mods.value.rest);
    if u.None? then None
    else Finish(Then([Begin(InProperty, e), Count(InParam, n.value.0)] + mods.value.events + u.value.events,
                     ParsePropertyParams(u.value.rest, n.value.0)), End(InProperty))
  }

  function Parse(s: seq<byte>): Result {
    if s == [] then None
    else if IsMethodKind(s[0]) then ParseMethod(s[0], s[1..])
    else if s[0] % 16 == 6 then FieldPart(s[0], s[1..])
    else if s[0] % 16 == 7 then LocalsPart(s[0], s[1..])
    else if s[0] % 16 == 8 then PropertyPart(s[0], s[1..])
    else None
  }

  // ----- it inverts the printer -----

  lemma {:induction false} DivTwice(n: nat)
    ensures n / 0x1_0000 == (n / 0x100) / 0x100
  {
    var a := n / 0x100;
    var b, r := a / 0x100, a % 0x100;
    assert n == b * 0x1_0000 + (r * 0x100 + n % 0x100);
  }

  lemma {:induction false} DivThrice(n: nat)
    ensures n / 0x100_0000 == (n / 0x1_0000) / 0x100
  {
    var a := n / 0x1_0000;
    var b, r := a / 0x100, a % 0x100;
    assert n == b * 0x100_0000 + (r * 0x1_0000 + n % 0x1_0000);
  }

  lemma {:induction false} LastByte(n: nat)
    ensures n == (n / 0x100) * 0x100 + n % 0x100
  {
  }

  lemma {:induction false} FourBytes(n: nat)
    ensures n == (n / 0x100_0000) * 0x100_0000 + ((n / 0x1_0000) % 0x100) * 0x1_0000 + ((n / 0x100) % 0x100) * 0x100 + n % 0x100
  {
    var a, b, c := n / 0x100, n / 0x1_0000, n / 0x100_0000;
    DivTwice(n);
    DivThrice(n);
    LastByte(n);
    LastByte(a);
    LastByte(b);
    Recompose(n, a, b, c, n % 0x100, a % 0x100, b % 0x100);
  }

  lemma {:induction false} Recompose(n: nat, a: nat, b: nat, c: nat, x: nat, y: nat, z: nat)
    requires n == a * 0x100 + x && a == b * 0x100 + y && b == c * 0x100 + z
    ensures n == c * 0x100_0000 + z * 0x1_0000 + y * 0x100 + x
  {
  }

  /** Numbers below two to the 29 read back as themselves. */
  lemma {:induction false} NumberReadBack(n: nat, rest: seq<byte>)
    requires n < LIMIT
    ensures ReadNumber(Number(n) + rest) == Some((n, rest))
  {
    var s := Number(n) + rest;
    if n < 0x80 {
      assert s[1..] == rest;
    } else if n < 0x4000 {
      assert s[2..] == rest;
    } else {
      FourBytes(n);
      var b1: byte, b2: byte, b3: byte, b4: byte :=
        0xC0 + n / 0x100_0000, (n / 0x1_0000) % 0x100, (n / 0x100) % 0x100, n % 0x100;
      FourByteNumber(b1, b2, b3, b4, rest);
    }
  }

  lemma {:induction false} FourByteNumber(b1: byte, b2: byte, b3: byte, b4: byte, rest: seq<byte>)
    requires 0xC0 <= b1 < 0xE0
    ensures ReadNumber([b1, b2, b3, b4] + rest)
            == Some(((b1 as int - 0xC0) * 0x100_0000 + b2 as int * 0x1_0000 + b3 as int * 0x100 + b4 as int, rest))
  {
    assert ([b1, b2, b3, b4] + rest)[4..] == rest;
  }

  lemma {:induction false} TokenReadBack(t: Token, rest: seq<byte>)
    requires TokenOk(t)
    ensures ReadToken(TokenBytes(t) + rest) == Some((t, rest))
  {
    hide ReadNumber, ReadCoded, Number;
    NumberReadBack(4 * t.row + t.tag, rest);
  }

  /** What follows custom modifiers is not taken for one. */
  predicate NoMod(s: seq<byte>) {
    s == [] || (s[0] != CMOD_OPT && s[0] != CMOD_REQD)
  }

  lemma {:induction false} ModsReadBack(ms: seq<Mod>, rest: seq<byte>)
    requires ModsOk(ms) && NoMod(rest)
    ensures ParseMods(ModsBytes(ms) + rest) == Some(Parsed(ModsEvents(ms), rest))
    decreases |ms|
  {
    hide ReadToken, TokenBytes, TokenOk;
    if ms == [] {
      assert ModsBytes(ms) + rest == rest;
    } else {
      var c: byte := if ms[0].required then CMOD_REQD else CMOD_OPT;
      var more := ModsBytes(ms[1..]) + rest;
      assert ModsBytes(ms) + rest == [c] + (TokenBytes(ms[0].token) + more);
      assert ([c] + (TokenBytes(ms[0].token) + more))[1..] == TokenBytes(ms[0].token) + more;
      TokenReadBack(ms[0].token, more);
      ModsReadBack(ms[1..], rest);
    }
  }

  lemma {:induction false} NumbersReadBack(ns: seq<nat>, rest: seq<byte>, lo: bool)
    requires forall i :: 0 <= i < |ns| ==> ns[i] < LIMIT
    ensures ParseNumbers(NumbersBytes(ns) + rest, |ns|, lo)
            == Some(Parsed(if lo then LoBoundsEvents(ns) else SizesEvents(ns), rest))
    decreases |ns|
  {
    hide ReadNumber, Number;
    if ns == [] {
      assert NumbersBytes(ns) + rest == rest;
    } else {
      var more := NumbersBytes(ns[1..]) + rest;
      assert NumbersBytes(ns) + rest == Number(ns[0]) + more;
      NumberReadBack(ns[0], more);
      NumbersReadBack(ns[1..], rest, lo);
    }
  }

  lemma {:induction false} ShapeReadBack(s: Shape, rest: seq<byte>)
    requires ShapeOk(s)
    ensures ParseArrayShape(ShapeBytes(s) + rest) == Some(Parsed(ShapeEvents(s), rest))
  {
    hide ReadNumber, Number, ParseNumbers, NumbersBytes, SizesEvents, LoBoundsEvents;
    var d := NumbersBytes(s.loBounds) + rest;
    var c := Number(|s.loBounds|) + d;
    var b := NumbersBytes(s.sizes) + c;
    var a := Number(|s.sizes|) + b;
    assert ShapeBytes(s) + rest == Number(s.rank) + a;
    NumberReadBack(s.rank, a);
    NumberReadBack(|s.sizes|, b);
    NumbersReadBack(s.sizes, c, false);
    NumberReadBack(|s.loBounds|, d);
    NumbersReadBack(s.loBounds, rest, true);
  }

  /** The first byte of a type is none of the bytes that mean something else where types stand. */
  predicate StartsType(s: seq<byte>) {
    s != [] && s[0] != VOID && s[0] != BYREF && s[0] != TYPEDBYREF && s[0] != CMOD_OPT && s[0] != CMOD_REQD
    && s[0] != SENTINEL && s[0] != PINNED
  }

  lemma {:induction false} TypeStarts(t: Type, rest: seq<byte>)
    requires TypeOk(t)
    ensures StartsType(TypeBytes(t) + rest)
  {
    hide ModsBytes, TokenBytes, MethodBytes, TypesBytes, ShapeBytes, Number;
  }

  // What the parser gives for a printed type, behind which stands rest.

  ghost predicate ReadsType(t: Type, rest: seq<byte>) {
    TypeOk(t) && ParseType(TypeBytes(t) + rest) == Some(Parsed(TypeEvents(t), rest))
  }

  ghost predicate ReadsTypes(ts: seq<Type>, rest: seq<byte>) {
    (forall i :: 0 <= i < |ts| ==> TypeOk(ts[i]))
    && ParseTypes(TypesBytes(ts) + rest, |ts|) == Some(Parsed(TypesEvents(ts), rest))
  }

  ghost predicate ReadsSlot(sl: Slot, ret: bool, rest: seq<byte>) {
    SlotOk(sl) && ParseSlot(SlotBytes(sl) + rest, ret) == Some(Parsed(SlotEvents(sl), rest))
  }

  function KindOf(ret: bool): Kind { if ret then InRetType else InParam }

  ghost predicate ReadsParam(p: Param, ret: bool, rest: seq<byte>) {
    RetOk(p) && ParseParam(ParamBytes(p) + rest, ret) == Some(Parsed(ParamEvents(KindOf(ret), p), rest))
  }

  ghost predicate ReadsParams(ps: seq<Param>, sentinel: Option<nat>, seen: bool, rest: seq<byte>) {
    (forall i :: 0 <= i < |ps| ==> ParamOk(ps[i]))
    && ParseParams(ParamsBytes(ps, sentinel) + rest, |ps|, seen) == Some(Parsed(ParamsEvents(ps, sentinel), rest))
  }

  ghost predicate ReadsMethod(m: Method, rest: seq<byte>) {
    MethodOk(m) && ParseMethod(m.elem, MethodBytes(m) + rest) == Some(Parsed(MethodEvents(m), rest))
  }

  /** From behind the element byte to the whole type. */
  lemma {:induction false} TypeFromInner(t: Type, e: byte, body: seq<byte>, inner: seq<Event>, rest: seq<byte>)
    requires TypeOk(t) && TypeBytes(t) == [e] + body
    requires TypeEvents(t) == [Open(InType)] + inner + [End(InType)]
    requires ParseTypeInner(e, body + rest) == Some(Parsed(inner, rest))
    ensures ReadsType(t, rest)
  {
    hide TypeBytes, TypeEvents, ParseTypeInner, TypeOk;
    var s := TypeBytes(t) + rest;
    assert s[0] == e && s[1..] == body + rest;
  }

  lemma {:induction false} SimpleReadBack(e: byte, rest: seq<byte>)
    requires IsSimple(e)
    ensures ReadsType(Simple(e), rest)
  {
    hide ReadsType;
    assert [] + rest == rest;
    TypeFromInner(Simple(e), e, [], [TypeSimple(e)], rest);
  }

  lemma {:induction false} VoidPointerReadBack(mods: seq<Mod>, rest: seq<byte>)
    requires ModsOk(mods)
    ensures ReadsType(VoidPointer(mods), rest)
  {
    hide ReadsType, ModsBytes, ModsEvents, ParseMods, ModsOk;
    var t := VoidPointer(mods);
    var body := ModsBytes(mods) + [VOID];
    assert body + rest == ModsBytes(mods) + ([VOID] + rest);
    ModsReadBack(mods, [VOID] + rest);
    assert ([VOID] + rest)[1..] == rest;
    var inner := [TypePointer] + ModsEvents(mods) + [VoidSeen];
    assert TypeBytes(t) == [PTR] + body;
    TypeFromInner(t, PTR, body, inner, rest);
  }

  lemma {:induction false} PointerReadBack(mods: seq<Mod>, u: Type, rest: seq<byte>)
    requires ModsOk(mods) && ReadsType(u, rest)
    ensures ReadsType(Pointer(mods, u), rest) && ReadsType(SzArray(mods, u), rest)
  {
    hide ModsBytes, ModsEvents, ParseMods, ModsOk;
    var p, a := Pointer(mods, u), SzArray(mods, u);
    var us := TypeBytes(u) + rest;
    var body := ModsBytes(mods) + TypeBytes(u);
    assert body + rest == ModsBytes(mods) + us;
    TypeStarts(u, rest);
    ModsReadBack(mods, us);
    PointerBody(mods, u, rest);
    hide ReadsType, ParseType, ParseTypeInner;
    var inner := ModsEvents(mods) + TypeEvents(u);
    assert TypeBytes(p) == [PTR] + body;
    assert TypeEvents(p) == [Open(InType)] + ([TypePointer] + inner) + [End(InType)];
    TypeFromInner(p, PTR, body, [TypePointer] + inner, rest);
    assert TypeBytes(a) == [SZARRAY] + body;
    assert TypeEvents(a) == [Open(InType)] + ([TypeSzArray] + inner) + [End(InType)];
    TypeFromInner(a, SZARRAY, body, [TypeSzArray] + inner, rest);
  }

  lemma {:induction false} PointerBody(mods: seq<Mod>, u: Type, rest: seq<byte>)
    requires ModsOk(mods) && ReadsType(u, rest)
    ensures ParseTypeInner(PTR, ModsBytes(mods) + TypeBytes(u) + rest)
            == Some(Parsed([TypePointer] + (ModsEvents(mods) + TypeEvents(u)), rest))
    ensures ParseTypeInner(SZARRAY, ModsBytes(mods) + TypeBytes(u) + rest)
            == Some(Parsed([TypeSzArray] + (ModsEvents(mods) + TypeEvents(u)), rest))
  {
    hide ModsBytes, ModsEvents, ParseMods, ModsOk, ParseType, TypeBytes, TypeEvents, TypeOk;
    var us := TypeBytes(u) + rest;
    assert ModsBytes(mods) + TypeBytes(u) + rest == ModsBytes(mods) + us;
    TypeStarts(u, rest);
    ModsReadBack(mods, us);
    assert [TypePointer] + ModsEvents(mods) + TypeEvents(u) == [TypePointer] + (ModsEvents(mods) + TypeEvents(u));
    assert [TypeSzArray] + ModsEvents(mods) + TypeEvents(u) == [TypeSzArray] + (ModsEvents(mods) + TypeEvents(u));
  }

  lemma {:induction false} NamedReadBack(token: Token, rest: seq<byte>)
    requires TokenOk(token)
    ensures ReadsType(Class(token), rest) && ReadsType(ValueType(token), rest)
  {
    hide ReadsType, TokenBytes, ReadToken, TokenOk;
    TokenReadBack(token, rest);
    TypeFromInner(Class(token), CLASS, TokenBytes(token), [TypeClass, TypeDefOrRef(token)], rest);
    TypeFromInner(ValueType(token), VALUETYPE, TokenBytes(token), [TypeValueType, TypeDefOrRef(token)], rest);
  }

  lemma {:induction false} VariableReadBack(n: nat, rest: seq<byte>)
    requires n < LIMIT
    ensures ReadsType(TypeVariable(n), rest) && ReadsType(MemberVariable(n), rest)
  {
    hide ReadsType, Number, ReadNumber;
    NumberReadBack(n, rest);
    TypeFromInner(TypeVariable(n), VAR, Number(n), [TypeGenericTypeVariable(n)], rest);
    TypeFromInner(MemberVariable(n), MVAR, Number(n), [TypeGenericMemberVariable(n)], rest);
  }

  lemma {:induction false} FunctionPointerReadBack(m: Method, rest: seq<byte>)
    requires ReadsMethod(m, rest)
    ensures ReadsType(FunctionPointer(m), rest)
  {
    hide ReadsType, MethodBytes, MethodEvents, ParseMethod, MethodOk;
    var t := FunctionPointer(m);
    var body := [m.elem] + MethodBytes(m);
    assert (body + rest)[1..] == MethodBytes(m) + rest;
    assert TypeBytes(t) == [FNPTR] + body;
    TypeFromInner(t, FNPTR, body, [TypeFunctionPointer] + MethodEvents(m), rest);
  }

  lemma {:induction false} ArrayReadBack(u: Type, shape: Shape, rest: seq<byte>)
    requires ShapeOk(shape) && TypeOk(u) && ReadsType(u, ShapeBytes(shape) + rest)
    ensures ReadsType(Array(u, shape), rest)
  {
    hide ShapeOk, ShapeBytes, ShapeEvents, ParseArrayShape;
    var t := Array(u, shape);
    var body := TypeBytes(u) + ShapeBytes(shape);
    var inner := [TypeArray] + TypeEvents(u) + ShapeEvents(shape);
    assert body + rest == TypeBytes(u) + (ShapeBytes(shape) + rest);
    ShapeReadBack(shape, rest);
    assert ParseTypeInner(ARRAY, body + rest) == Some(Parsed(inner, rest)) by {
      hide TypeBytes, TypeEvents, ParseType;
    }
    hide ReadsType, ParseType, ParseTypeInner;
    assert TypeBytes(t) == [ARRAY] + body;
    TypeFromInner(t, ARRAY, body, inner, rest);
  }

  lemma {:induction false} GenericReadBack(kind: byte, token: Token, args: seq<Type>, rest: seq<byte>)
    requires TypeOk(GenericInst(kind, token, args)) && ReadsTypes(args, rest)
    ensures ReadsType(GenericInst(kind, token, args), rest)
  {
    hide ReadsType, TokenBytes, ReadToken, TokenOk, Number, ReadNumber, TypesBytes, TypesEvents, ParseTypes, ParseTypeInner;
    var t := GenericInst(kind, token, args);
    var body := [kind] + TokenBytes(token) + Number(|args|) + TypesBytes(args);
    GenericBody(kind, token, args, rest);
    var inner := [TypeGenericInst(kind, token, |args|)] + TypesEvents(args);
    assert [GENERICINST, kind] == [GENERICINST] + [kind];
    assert TypeBytes(t) == [GENERICINST] + body;
    TypeFromInner(t, GENERICINST, body, inner, rest);
  }

  lemma {:induction false} GenericBody(kind: byte, token: Token, args: seq<Type>, rest: seq<byte>)
    requires TypeOk(GenericInst(kind, token, args)) && ReadsTypes(args, rest)
    ensures ParseTypeInner(GENERICINST, [kind] + TokenBytes(token) + Number(|args|) + TypesBytes(args) + rest)
            == Some(Parsed([TypeGenericInst(kind, token, |args|)] + TypesEvents(args), rest))
  {
    hide TokenBytes, ReadToken, TokenOk, Number, ReadNumber, TypesBytes, TypesEvents, ParseTypes;
    var c := TypesBytes(args) + rest;
    var b := Number(|args|) + c;
    var a := TokenBytes(token) + b;
    assert [kind] + TokenBytes(token) + Number(|args|) + TypesBytes(args) + rest == [kind] + a;
    assert ([kind] + a)[1..] == a;
    TokenReadBack(token, b);
    NumberReadBack(|args|, c);
  }

  lemma {:induction false} TypesStep(ts: seq<Type>, rest: seq<byte>)
    requires ts != [] && (forall i :: 0 <= i < |ts| ==> TypeOk(ts[i]))
    requires ReadsTypes(ts[1..], rest) && ReadsType(ts[0], TypesBytes(ts[1..]) + rest)
    ensures ReadsTypes(ts, rest)
  {
    hide TypeOk, TypeBytes, TypeEvents, ParseType;
    assert TypesBytes(ts) + rest == TypeBytes(ts[0]) + (TypesBytes(ts[1..]) + rest);
  }

  lemma {:induction false} TypesNone(rest: seq<byte>)
    ensures ReadsTypes([], rest)
  {
    assert TypesBytes([]) + rest == rest;
  }

  /** A slot reads back from its type; only a return value may be void. */
  lemma {:induction false} SlotStep(sl: Slot, ret: bool, rest: seq<byte>)
    requires SlotOk(sl) && (sl.VoidSlot? ==> ret) && (sl.Slot? ==> ReadsType(sl.t, rest))
    ensures ReadsSlot(sl, ret, rest)
  {
    hide TypeOk, TypeBytes, TypeEvents, ParseType;
    var s := SlotBytes(sl) + rest;
    if sl.Slot? {
      TypeStarts(sl.t, rest);
      if sl.byref {
        assert s[1..] == TypeBytes(sl.t) + rest;
      } else {
        assert s == TypeBytes(sl.t) + rest;
        assert SlotEvents(sl) == TypeEvents(sl.t);
      }
    } else {
      assert s[1..] == rest;
    }
  }

  lemma {:induction false} SlotStarts(sl: Slot, rest: seq<byte>)
    requires SlotOk(sl)
    ensures SlotBytes(sl) + rest != [] && NoMod(SlotBytes(sl) + rest) && (SlotBytes(sl) + rest)[0] != SENTINEL
  {
    hide TypeOk, TypeBytes;
    if sl.Slot? {
      TypeStarts(sl.t, rest);
      if !sl.byref {
        assert SlotBytes(sl) + rest == TypeBytes(sl.t) + rest;
      }
    }
  }

  lemma {:induction false} ParamStep(p: Param, ret: bool, rest: seq<byte>)
    requires RetOk(p) && ReadsSlot(p.slot, ret, rest)
    ensures ReadsParam(p, ret, rest)
  {
    hide ModsOk, SlotOk, ModsBytes, SlotBytes, ModsEvents, SlotEvents, ParseMods, ParseSlot;
    var more := SlotBytes(p.slot) + rest;
    assert ParamBytes(p) + rest == ModsBytes(p.mods) + more;
    SlotStarts(p.slot, rest);
    ModsReadBack(p.mods, more);
  }

  lemma {:induction false} ParamStarts(p: Param, rest: seq<byte>)
    requires RetOk(p)
    ensures ParamBytes(p) + rest != [] && (ParamBytes(p) + rest)[0] != SENTINEL
  {
    hide SlotOk, SlotBytes;
    SlotStarts(p.slot, rest);
    if p.mods == [] {
      assert ParamBytes(p) + rest == SlotBytes(p.slot) + rest;
    }
  }

  lemma {:induction false} ParamsStep(ps: seq<Param>, sentinel: Option<nat>, seen: bool, rest: seq<byte>)
    requires ps != [] && (forall i :: 0 <= i < |ps| ==> ParamOk(ps[i]))
    requires seen ==> sentinel.None?
    requires ReadsParams(ps[1..], Earlier(sentinel), seen || sentinel == Some(0), rest)
    requires ReadsParam(ps[0], false, ParamsBytes(ps[1..], Earlier(sentinel)) + rest)
    ensures ReadsParams(ps, sentinel, seen, rest)
  {
    hide RetOk, ParamBytes, ParamEvents, ParseParam, ParamOk, ParamsBytes, ParamsEvents, ParseParams;
    assert ParamOk(ps[0]) && RetOk(ps[0]) by { ParamIsRet(ps[0]); }
    var tail := ParamsBytes(ps[1..], Earlier(sentinel));
    var more := tail + rest;
    ParamsSplit(ps, sentinel);
    ParamStarts(ps[0], more);
    var p := Parsed(ParamEvents(InParam, ps[0]), more);
    var t := Parsed(ParamsEvents(ps[1..], Earlier(sentinel)), rest);
    if sentinel == Some(0) {
      assert ParamsBytes(ps, sentinel) + rest == [SENTINEL] + (ParamBytes(ps[0]) + more);
      MarkedParam(ParamBytes(ps[0]) + more, |ps|, p, t);
    } else {
      assert ParamsBytes(ps, sentinel) + rest == ParamBytes(ps[0]) + more;
      PlainParam(ParamBytes(ps[0]) + more, |ps|, seen, p, t);
    }
  }

  lemma {:induction false} ParamIsRet(p: Param)
    requires ParamOk(p)
    ensures RetOk(p)
  {
  }

  lemma {:induction false} ParamsSplit(ps: seq<Param>, sentinel: Option<nat>)
    requires ps != [] && (forall i :: 0 <= i < |ps| ==> ParamOk(ps[i])) && RetOk(ps[0])
    ensures var mark: seq<byte> := if sentinel == Some(0) then [SENTINEL] else [];
      ParamsBytes(ps, sentinel) == mark + ParamBytes(ps[0]) + ParamsBytes(ps[1..], Earlier(sentinel))
    ensures var mark := if sentinel == Some(0) then [Sentinel] else [];
      ParamsEvents(ps, sentinel) == mark + ParamEvents(InParam, ps[0]) + ParamsEvents(ps[1..], Earlier(sentinel))
  {
    hide ParamOk, RetOk, ParamBytes, ParamEvents;
  }

  lemma {:induction false} PlainParam(s: seq<byte>, n: nat, seen: bool, p: Parsed, t: Parsed)
    requires n > 0 && s != [] && s[0] != SENTINEL && ParseParam(s, false) == Some(p) && ParseParams(p.rest, n - 1, seen) == Some(t)
    ensures ParseParams(s, n, seen) == Some(Parsed(p.events + t.events, t.rest))
    ensures [] + p.events + t.events == p.events + t.events
  {
    hide ParseParam;
  }

  lemma {:induction false} MarkedParam(s: seq<byte>, n: nat, p: Parsed, t: Parsed)
    requires n > 0 && ParseParam(s, false) == Some(p) && ParseParams(p.rest, n - 1, true) == Some(t)
    ensures ParseParams([SENTINEL] + s, n, false) == Some(Parsed([Sentinel] + p.events + t.events, t.rest))
  {
    hide ParseParam;
    assert ([SENTINEL] + s)[1..] == s;
  }

  lemma {:induction false} ParamsNone(sentinel: Option<nat>, seen: bool, rest: seq<byte>)
    ensures ReadsParams([], sentinel, seen, rest)
  {
    assert ParamsBytes([], sentinel) + rest == rest;
  }

  lemma {:induction false} MethodStep(m: Method, rest: seq<byte>)
    requires MethodOk(m) && ReadsParams(m.params, m.sentinel, false, rest)
    requires ReadsParam(m.ret, true, ParamsBytes(m.params, m.sentinel) + rest)
    ensures ReadsMethod(m, rest)
  {
    hide ParamOk, RetOk, ParamBytes, ParamsBytes, ParamEvents, ParamsEvents, ParseParam, ParseParams, Number, ReadNumber;
    var c := ParamsBytes(m.params, m.sentinel) + rest;
    var b := ParamBytes(m.ret) + c;
    var a := Number(|m.params|) + b;
    NumberReadBack(|m.params|, b);
    var events := [Count(InParam, |m.params|)] + ParamEvents(InRetType, m.ret) + ParamsEvents(m.params, m.sentinel);
    assert ParseSignature(a) == Some(Parsed(events, rest));
    hide ParseSignature;
    if IsGeneric(m.elem) {
      assert MethodBytes(m) + rest == Number(m.genericParams) + a;
      NumberReadBack(m.genericParams, a);
      assert MethodEvents(m) == [Begin(InMethod, m.elem), GenericParamCount(m.genericParams)] + events + [End(InMethod)];
    } else {
      assert MethodBytes(m) + rest == a;
      assert MethodEvents(m) == [Begin(InMethod, m.elem)] + events + [End(InMethod)];
    }
  }

  /** Every printed type reads back, whatever follows it. */
  lemma {:induction false} TypeReadBack(t: Type, rest: seq<byte>)
    requires TypeOk(t)
    ensures ReadsType(t, rest)
    decreases t, 1
  {
    hide ReadsType, ReadsTypes, ReadsMethod;
    match t
    case Simple(e) => SimpleReadBack(e, rest);
    case VoidPointer(mods) => VoidPointerReadBack(mods, rest);
    case Pointer(mods, u) => TypeReadBack(u, rest); PointerReadBack(mods, u, rest);
    case Class(token) => NamedReadBack(token, rest);
    case ValueType(token) => NamedReadBack(token, rest);
    case FunctionPointer(m) => MethodReadBack(m, rest); FunctionPointerReadBack(m, rest);
    case Array(u, shape) => TypeReadBack(u, ShapeBytes(shape) + rest); ArrayReadBack(u, shape, rest);
    case SzArray(mods, u) => TypeReadBack(u, rest); PointerReadBack(mods, u, rest);
    case GenericInst(kind, token, args) => TypesReadBack(args, rest); GenericReadBack(kind, token, args, rest);
    case TypeVariable(n) => VariableReadBack(n, rest);
    case MemberVariable(n) => VariableReadBack(n, rest);
  }

  lemma {:induction false} TypesReadBack(ts: seq<Type>, rest: seq<byte>)
    requires forall i :: 0 <= i < |ts| ==> TypeOk(ts[i])
    ensures ReadsTypes(ts, rest)
    decreases ts, 0
  {
    hide TypeOk, ReadsType, ReadsTypes;
    if ts == [] {
      TypesNone(rest);
    } else {
      TypesReadBack(ts[1..], rest);
      TypeReadBack(ts[0], TypesBytes(ts[1..]) + rest);
      TypesStep(ts, rest);
    }
  }

  lemma {:induction false} ParamReadBack(p: Param, ret: bool, rest: seq<byte>)
    requires RetOk(p) && (p.slot.VoidSlot? ==> ret)
    ensures ReadsParam(p, ret, rest)
    decreases p, 3
  {
    hide TypeOk, ReadsType, ReadsSlot, ReadsParam;
    if p.slot.Slot? {
      TypeReadBack(p.slot.t, rest);
    }
    SlotStep(p.slot, ret, rest);
    ParamStep(p, ret, rest);
  }

  lemma {:induction false} ParamsReadBack(ps: seq<Param>, sentinel: Option<nat>, seen: bool, rest: seq<byte>)
    requires forall i :: 0 <= i < |ps| ==> ParamOk(ps[i])
    requires seen ==> sentinel.None?
    ensures ReadsParams(ps, sentinel, seen, rest)
    decreases ps, 0
  {
    hide RetOk, ReadsParam, ReadsParams;
    if ps == [] {
      ParamsNone(sentinel, seen, rest);
    } else {
      ParamsReadBack(ps[1..], Earlier(sentinel), seen || sentinel == Some(0), rest);
      ParamReadBack(ps[0], false, ParamsBytes(ps[1..], Earlier(sentinel)) + rest);
      ParamsStep(ps, sentinel, seen, rest);
    }
  }

  lemma {:induction false} MethodReadBack(m: Method, rest: seq<byte>)
    requires MethodOk(m)
    ensures ReadsMethod(m, rest)
    decreases m, 5
  {
    hide RetOk, ParamOk, ReadsParam, ReadsParams, ReadsMethod;
    ParamsReadBack(m.params, m.sentinel, false, rest);
    ParamReadBack(m.ret, true, ParamsBytes(m.params, m.sentinel) + rest);
    MethodStep(m, rest);
  }

  // ----- locals, fields and properties -----

  lemma {:induction false} OneMod(m: Mod)
    requires TokenOk(m.token)
    ensures ModsBytes([m]) == [if m.required then CMOD_REQD else CMOD_OPT] + TokenBytes(m.token)
    ensures ModsEvents([m]) == [CustomModSeen(if m.required then CMOD_REQD else CMOD_OPT, m.token)]
  {
    assert [m][1..] == [];
  }

  lemma {:induction false} LocalModStep(s: seq<byte>, c: byte, token: Token, more: seq<byte>, tail: Parsed)
    requires TokenOk(token) && (c == CMOD_OPT || c == CMOD_REQD) && s == [c] + (TokenBytes(token) + more)
    requires ParseModsOrConstraint(more) == Some(tail)
    ensures ParseModsOrConstraint(s) == Some(Parsed([CustomModSeen(c, token)] + tail.events, tail.rest))
  {
    hide ReadToken, TokenBytes, TokenOk;
    assert s[1..] == TokenBytes(token) + more;
    TokenReadBack(token, more);
  }

  lemma {:induction false} PinnedStep(more: seq<byte>, tail: Parsed)
    requires ParseModsOrConstraint(more) == Some(tail)
    ensures ParseModsOrConstraint([PINNED] + more) == Some(Parsed([Constraint(PINNED)] + tail.events, tail.rest))
  {
    assert ([PINNED] + more)[1..] == more;
  }

  lemma {:induction false} NoLocalMods(rest: seq<byte>)
    requires NoMod(rest) && (rest == [] || rest[0] != PINNED)
    ensures ParseModsOrConstraint(rest) == Some(Parsed([], rest)) && LocalModsBytes([]) == [] && LocalModsEvents([]) == []
  {
  }

  /** The first modifier of a local and those behind it. */
  lemma {:induction false} LocalModsSplit(ms: seq<LocalMod>)
    requires ms != [] && forall i :: 0 <= i < |ms| && ms[i].CustomMod? ==> TokenOk(ms[i].mod.token)
    ensures ms[0].Pinned? ==> LocalModsBytes(ms) == [PINNED] + LocalModsBytes(ms[1..])
                              && LocalModsEvents(ms) == [Constraint(PINNED)] + LocalModsEvents(ms[1..])
    ensures ms[0].CustomMod? ==>
              var m := ms[0].mod; var c: byte := if m.required then CMOD_REQD else CMOD_OPT;
              && LocalModsBytes(ms) == [c] + TokenBytes(m.token) + LocalModsBytes(ms[1..])
              && LocalModsEvents(ms) == [CustomModSeen(c, m.token)] + LocalModsEvents(ms[1..])
  {
    hide TokenBytes, TokenOk, ModsBytes, ModsEvents;
    if ms[0].CustomMod? {
      OneMod(ms[0].mod);
    }
  }

  lemma {:induction false} LocalModsReadBack(ms: seq<LocalMod>, rest: seq<byte>)
    requires forall i :: 0 <= i < |ms| && ms[i].CustomMod? ==> TokenOk(ms[i].mod.token)
    requires NoMod(rest) && (rest == [] || rest[0] != PINNED)
    ensures ParseModsOrConstraint(LocalModsBytes(ms) + rest) == Some(Parsed(LocalModsEvents(ms), rest))
    decreases |ms|
  {
    hide TokenBytes, TokenOk, ParseModsOrConstraint, NoMod, LocalModsBytes, LocalModsEvents;
    var s := LocalModsBytes(ms) + rest;
    if ms == [] {
      NoLocalMods(rest);
      assert s == rest;
    } else {
      var more := LocalModsBytes(ms[1..]) + rest;
      var tail := Parsed(LocalModsEvents(ms[1..]), rest);
      LocalModsReadBack(ms[1..], rest);
      LocalModsSplit(ms);
      if ms[0].Pinned? {
        assert s == [PINNED] + more;
        PinnedStep(more, tail);
      } else {
        var m := ms[0].mod;
        var c: byte := if m.required then CMOD_REQD else CMOD_OPT;
        assert s == [c] + (TokenBytes(m.token) + more);
        LocalModStep(s, c, m.token, more, tail);
      }
    }
  }

  lemma {:induction false} LocalReadBack(l: Local, rest: seq<byte>)
    requires LocalOk(l)
    ensures ParseLocal(LocalBytes(l) + rest) == Some(Parsed(LocalEvents(l), rest))
  {
    hide LocalModsBytes, LocalModsEvents, ParseModsOrConstraint, TypeOk, TypeBytes, TypeEvents, ParseType;
    if l.LocalTypedByref? {
      assert (LocalBytes(l) + rest)[1..] == rest;
      assert LocalEvents(l) == [Open(InLocal), TypedByrefSeen, End(InLocal)];
    } else {
      TypeReadBack(l.t, rest);
      TypeStarts(l.t, rest);
      var more := TypeBytes(l.t) + rest;
      var tail := SlotBytes(Slot(l.byref, l.t)) + rest;
      assert tail == if l.byref then [BYREF] + more else more;
      assert l.byref ==> tail[1..] == more;
      LocalModsReadBack(l.lmods, tail);
      LocalModsStart(l.lmods, tail);
      assert LocalBytes(l) + rest == LocalModsBytes(l.lmods) + tail;
      var es := [Open(InLocal)] + LocalModsEvents(l.lmods);
      assert l.byref ==> LocalEvents(l) == es + [ByrefSeen] + TypeEvents(l.t) + [End(InLocal)];
      assert !l.byref ==> LocalEvents(l) == es + TypeEvents(l.t) + [End(InLocal)];
    }
  }

  lemma {:induction false} LocalModsStart(ms: seq<LocalMod>, tail: seq<byte>)
    requires forall i :: 0 <= i < |ms| && ms[i].CustomMod? ==> TokenOk(ms[i].mod.token)
    requires tail != [] && tail[0] != TYPEDBYREF
    ensures LocalModsBytes(ms) + tail != [] && (LocalModsBytes(ms) + tail)[0] != TYPEDBYREF
  {
    hide TokenBytes, TokenOk;
  }

  lemma {:induction false} LocalListReadBack(ls: seq<Local>, rest: seq<byte>)
    requires forall i :: 0 <= i < |ls| ==> LocalOk(ls[i])
    ensures ParseLocalList(LocalsBytes(ls) + rest, |ls|) == Some(Parsed(LocalsEvents(ls), rest))
    decreases |ls|
  {
    hide LocalOk, LocalBytes, LocalEvents, ParseLocal;
    if ls == [] {
      assert LocalsBytes(ls) + rest == rest;
    } else {
      var more := LocalsBytes(ls[1..]) + rest;
      assert LocalsBytes(ls) + rest == LocalBytes(ls[0]) + more;
      LocalReadBack(ls[0], more);
      LocalListReadBack(ls[1..], rest);
    }
  }

  lemma {:induction false} PropertyParamsReadBack(ps: seq<Param>, rest: seq<byte>)
    requires forall i :: 0 <= i < |ps| ==> ParamOk(ps[i])
    ensures ParsePropertyParams(ParamsBytes(ps, None) + rest, |ps|) == Some(Parsed(ParamsEvents(ps, None), rest))
    decreases |ps|
  {
    hide RetOk, ParamBytes, ParamEvents, ParseParam;
    if ps == [] {
      assert ParamsBytes(ps, None) + rest == rest;
    } else {
      var more := ParamsBytes(ps[1..], None) + rest;
      assert ParamsBytes(ps, None) + rest == ParamBytes(ps[0]) + more;
      assert ParamsEvents(ps, None) == ParamEvents(InParam, ps[0]) + ParamsEvents(ps[1..], None);
      ParamReadBack(ps[0], false, more);
      PropertyParamsReadBack(ps[1..], rest);
    }
  }

  lemma {:induction false} FieldReadBack(e: byte, mods: seq<Mod>, t: Type, rest: seq<byte>)
    requires SigOk(FieldSig(e, mods, t))
    ensures Parse(SigBytes(FieldSig(e, mods, t)) + rest) == Some(Parsed(SigEvents(FieldSig(e, mods, t)), rest))
  {
    hide ModsOk, ModsBytes, ModsEvents, ParseMods, TypeOk, TypeBytes, TypeEvents, ParseType;
    var s := SigBytes(FieldSig(e, mods, t)) + rest;
    var more := TypeBytes(t) + rest;
    assert s[1..] == ModsBytes(mods) + more;
    TypeStarts(t, rest);
    ModsReadBack(mods, more);
    TypeReadBack(t, rest);
  }

  lemma {:induction false} LocalsReadBack(e: byte, locals: seq<Local>, rest: seq<byte>)
    requires SigOk(LocalsSig(e, locals))
    ensures Parse(SigBytes(LocalsSig(e, locals)) + rest) == Some(Parsed(SigEvents(LocalsSig(e, locals)), rest))
  {
    hide LocalOk, LocalsBytes, LocalsEvents, ParseLocalList, Number, ReadNumber;
    var s := SigBytes(LocalsSig(e, locals)) + rest;
    var more := LocalsBytes(locals) + rest;
    assert s[1..] == Number(|locals|) + more;
    NumberReadBack(|locals|, more);
    LocalListReadBack(locals, rest);
  }

  lemma {:induction false} PropertyReadBack(e: byte, mods: seq<Mod>, t: Type, params: seq<Param>, rest: seq<byte>)
    requires SigOk(PropertySig(e, mods, t, params))
    ensures Parse(SigBytes(PropertySig(e, mods, t, params)) + rest)
            == Some(Parsed(SigEvents(PropertySig(e, mods, t, params)), rest))
  {
    hide ModsOk, ModsBytes, ModsEvents, ParseMods, TypeOk, TypeBytes, TypeEvents, ParseType,
      ParamOk, ParamsBytes, ParamsEvents, ParsePropertyParams, Number, ReadNumber;
    var s := SigBytes(PropertySig(e, mods, t, params)) + rest;
    var c := ParamsBytes(params, None) + rest;
    var b := TypeBytes(t) + c;
    var a := ModsBytes(mods) + b;
    assert s[1..] == Number(|params|) + a;
    NumberReadBack(|params|, a);
    TypeStarts(t, c);
    ModsReadBack(mods, b);
    TypeReadBack(t, c);
    PropertyParamsReadBack(params, rest);
  }

  /** Every signature of the grammar, whatever bytes follow it, is accepted; exactly
      its own bytes are read, and the notifications are those of the tree, in
      preorder and properly nested. */
  lemma {:induction false} SigReadBack(sig: Sig, rest: seq<byte>)
    requires SigOk(sig)
    ensures Parse(SigBytes(sig) + rest) == Some(Parsed(SigEvents(sig), rest))
    ensures Nested(SigEvents(sig))
  {
    hide MethodOk, MethodBytes, MethodEvents, ParseMethod, Nested;
    SigNested(sig);
    match sig
    case MethodSig(m) =>
      assert (SigBytes(sig) + rest)[1..] == MethodBytes(m) + rest;
      MethodReadBack(m, rest);
    case FieldSig(e, mods, t) => FieldReadBack(e, mods, t, rest);
    case PropertySig(e, mods, t, params) => PropertyReadBack(e, mods, t, params, rest);
    case LocalsSig(e, locals) => LocalsReadBack(e, locals, rest);
  }

  // ----- whatever is accepted, its notifications are properly nested -----

  ghost predicate NestedResult(r: Result) {
    r.Some? ==> Nested(r.value.events)
  }

  lemma {:induction false} ThenNested(es: seq<Event>, r: Result)
    requires Nested(es) && NestedResult(r)
    ensures NestedResult(Then(es, r))
  {
    hide Nested;
    if r.Some? {
      NestedAppend(es, r.value.events);
    }
  }

  lemma {:induction false} PlainThenNested(e: Event, r: Result)
    requires !e.Begin? && !e.End? && NestedResult(r)
    ensures NestedResult(Then([e], r)) && Nested([e])
  {
    hide Nested, NestedResult;
    NestedPlain(e);
    ThenNested([e], r);
  }

  /** A Begin, some notifications, those of a result, and the End. */
  lemma {:induction false} WrappedNested(k: Kind, elem: byte, es: seq<Event>, r: Result)
    requires Nested(es) && NestedResult(r)
    ensures NestedResult(Finish(Then([Begin(k, elem)] + es, r), End(k)))
  {
    hide Nested;
    if r.Some? {
      NestedAppend(es, r.value.events);
      NestedWrap(k, elem, es + r.value.events);
      assert [Begin(k, elem)] + es + r.value.events + [End(k)] == [Begin(k, elem)] + (es + r.value.events) + [End(k)];
    }
  }

  lemma {:induction false} WrappedOnly(k: Kind, elem: byte, r: Result)
    requires NestedResult(r)
    ensures NestedResult(Finish(Then([Begin(k, elem)], r), End(k)))
  {
    hide Nested, NestedResult, Then, Finish;
    NestedNone();
    WrappedNested(k, elem, [], r);
    assert [Begin(k, elem)] + [] == [Begin(k, elem)];
  }

  lemma {:induction false} ModsAccepted(s: seq<byte>)
    ensures NestedResult(ParseMods(s))
    decreases |s|
  {
    hide Nested, ReadToken, NestedResult, Then;
    if s == [] || (s[0] != CMOD_OPT && s[0] != CMOD_REQD) {
      NoneAccepted(s);
    } else {
      var t := ReadToken(s[1..]);
      if t.Some? {
        ModsAccepted(t.value.1);
        PlainThenNested(CustomModSeen(s[0], t.value.0), ParseMods(t.value.1));
      } else {
        Rejected();
      }
    }
  }

  lemma {:induction false} NoneAccepted(s: seq<byte>)
    ensures NestedResult(Some(Parsed([], s)))
  {
    NestedNone();
  }

  lemma {:induction false} Rejected()
    ensures NestedResult(None)
  {
  }

  lemma {:induction false} OneAccepted(e: Event, s: seq<byte>)
    requires !e.Begin? && !e.End?
    ensures NestedResult(Some(Parsed([e], s)))
  {
    NestedPlain(e);
  }

  lemma {:induction false} TwoAccepted(e: Event, f: Event, s: seq<byte>)
    requires !e.Begin? && !e.End? && !f.Begin? && !f.End?
    ensures NestedResult(Some(Parsed([e, f], s)))
  {
    hide Nested;
    NestedPlain(e);
    NestedPlain(f);
    NestedAppend([e], [f]);
    assert [e] + [f] == [e, f];
  }

  lemma {:induction false} ModsOrConstraintAccepted(s: seq<byte>)
    ensures NestedResult(ParseModsOrConstraint(s))
    decreases |s|
  {
    hide Nested, ReadToken, NestedResult, Then;
    Rejected();
    NoneAccepted(s);
    if s != [] {
      if s[0] == CMOD_OPT || s[0] == CMOD_REQD {
        var t := ReadToken(s[1..]);
        if t.Some? {
          ModsOrConstraintAccepted(t.value.1);
          PlainThenNested(CustomModSeen(s[0], t.value.0), ParseModsOrConstraint(t.value.1));
        }
      } else if s[0] == PINNED {
        ModsOrConstraintAccepted(s[1..]);
        PlainThenNested(Constraint(PINNED), ParseModsOrConstraint(s[1..]));
      }
    }
  }

  lemma {:induction false} NumbersAccepted(s: seq<byte>, n: nat, lo: bool)
    ensures NestedResult(ParseNumbers(s, n, lo))
    decreases n
  {
    hide Nested, ReadNumber, NestedResult, Then;
    Rejected();
    NoneAccepted(s);
    if n > 0 {
      var v := ReadNumber(s);
      if v.Some? {
        NumbersAccepted(v.value.1, n - 1, lo);
        PlainThenNested(if lo then LoBound(v.value.0) else Size(v.value.0), ParseNumbers(v.value.1, n - 1, lo));
      }
    }
  }

  lemma {:induction false} ShapeAccepted(s: seq<byte>)
    ensures NestedResult(ParseArrayShape(s))
  {
    hide Nested, ReadNumber, ParseNumbers, NestedResult, Then, Finish;
    Rejected();
    var rank := ReadNumber(s);
    if rank.Some? {
      var numSizes := ReadNumber(rank.value.1);
      if numSizes.Some? {
        var sizes := ParseNumbers(numSizes.value.1, numSizes.value.0, false);
        if sizes.Some? {
          var numLo := ReadNumber(sizes.value.rest);
          if numLo.Some? {
            NumbersAccepted(numSizes.value.1, numSizes.value.0, false);
            NumbersAccepted(numLo.value.1, numLo.value.0, true);
            ShapeFront(rank.value.0, numSizes.value.0, sizes, numLo.value.0, ParseNumbers(numLo.value.1, numLo.value.0, true));
          }
        }
      }
    }
  }

  lemma {:induction false} ShapeFront(rank: nat, n: nat, sizes: Result, m: nat, los: Result)
    requires sizes.Some? && NestedResult(sizes) && NestedResult(los)
    ensures NestedResult(Finish(Then([Open(InArrayShape), Rank(rank), NumSizes(n)] + sizes.value.events + [NumLoBounds(m)], los), End(InArrayShape)))
  {
    hide Nested, Then, Finish;
    NestedPlain(Rank(rank));
    NestedPlain(NumSizes(n));
    NestedPlain(NumLoBounds(m));
    NestedFour([Rank(rank)], [NumSizes(n)], sizes.value.events, [NumLoBounds(m)]);
    var es := [Rank(rank)] + [NumSizes(n)] + sizes.value.events + [NumLoBounds(m)];
    WrappedNested(InArrayShape, 0, es, los);
    ShapeRegroup(rank, n, sizes.value.events, m);
  }

  lemma {:induction false} ShapeRegroup(rank: nat, n: nat, es: seq<Event>, m: nat)
    ensures [Open(InArrayShape), Rank(rank), NumSizes(n)] + es + [NumLoBounds(m)]
            == [Open(InArrayShape)] + ([Rank(rank)] + [NumSizes(n)] + es + [NumLoBounds(m)])
  {
  }

  /** A notification that is no bracket, those of a first result, then those of a second. */
  lemma {:induction false} TwoPartsNested(e: Event, a: Result, b: Result)
    requires !e.Begin? && !e.End? && a.Some? && NestedResult(a) && NestedResult(b)
    ensures NestedResult(Then([e] + a.value.events, b))
  {
    hide Nested, Then;
    NestedPlain(e);
    NestedAppend([e], a.value.events);
    ThenNested([e] + a.value.events, b);
  }

  lemma {:induction false} VoidPointerAccepted(mods: Result, s: seq<byte>)
    requires mods.Some? && NestedResult(mods)
    ensures NestedResult(Some(Parsed([TypePointer] + mods.value.events + [VoidSeen], s)))
  {
    hide Nested;
    NestedPlain(TypePointer);
    NestedPlain(VoidSeen);
    NestedAppend([TypePointer], mods.value.events);
    NestedAppend([TypePointer] + mods.value.events, [VoidSeen]);
  }

  lemma {:induction false} TypeAccepted(s: seq<byte>)
    ensures NestedResult(ParseType(s))
    decreases |s|, 1
  {
    hide Nested, NestedResult, Then, Finish, ParseTypeInner;
    Rejected();
    if s != [] {
      TypeInnerAccepted(s[0], s[1..]);
      WrappedOnly(InType, 0, ParseTypeInner(s[0], s[1..]));
    }
  }

  lemma {:induction false} PointerAccepted(s: seq<byte>)
    ensures NestedResult(ParseTypeInner(PTR, s))
    decreases |s|, 2
  {
    hide Nested, NestedResult, Then, ParseMods, ParseType;
    Rejected();
    var mods := ParseMods(s);
    ModsAccepted(s);
    if mods.Some? && mods.value.rest != [] {
      if mods.value.rest[0] == VOID {
        VoidPointerAccepted(mods, mods.value.rest[1..]);
      } else {
        TypeAccepted(mods.value.rest);
        TwoPartsNested(TypePointer, mods, ParseType(mods.value.rest));
      }
    }
  }

  lemma {:induction false} ArraysAccepted(s: seq<byte>)
    ensures NestedResult(ParseTypeInner(ARRAY, s)) && NestedResult(ParseTypeInner(SZARRAY, s))
    decreases |s|, 2
  {
    hide Nested, NestedResult, Then, ParseMods, ParseType, ParseArrayShape;
    Rejected();
    var u, mods := ParseType(s), ParseMods(s);
    TypeAccepted(s);
    ModsAccepted(s);
    if u.Some? {
      ShapeAccepted(u.value.rest);
      TwoPartsNested(TypeArray, u, ParseArrayShape(u.value.rest));
    }
    if mods.Some? {
      TypeAccepted(mods.value.rest);
      TwoPartsNested(TypeSzArray, mods, ParseType(mods.value.rest));
    }
  }

  lemma {:induction false} GenericAccepted(s: seq<byte>)
    ensures NestedResult(ParseTypeInner(GENERICINST, s))
    decreases |s|, 2
  {
    hide Nested, NestedResult, Then, ReadToken, ReadNumber, ParseTypes;
    Rejected();
    if s != [] && (s[0] == CLASS || s[0] == VALUETYPE) {
      var t := ReadToken(s[1..]);
      if t.Some? {
        var n := ReadNumber(t.value.1);
        if n.Some? {
          TypesAccepted(n.value.1, n.value.0);
          PlainThenNested(TypeGenericInst(s[0], t.value.0, n.value.0), ParseTypes(n.value.1, n.value.0));
        }
      }
    }
  }

  lemma {:induction false} LeafAccepted(e: byte, s: seq<byte>)
    requires e != PTR && e != FNPTR && e != ARRAY && e != SZARRAY && e != GENERICINST
    ensures NestedResult(ParseTypeInner(e, s))
  {
    hide Nested, NestedResult, ReadToken, ReadNumber;
    Rejected();
    NoneAccepted(s);
    var t, n := ReadToken(s), ReadNumber(s);
    OneAccepted(TypeSimple(e), s);
    if t.Some? {
      TwoAccepted(TypeClass, TypeDefOrRef(t.value.0), t.value.1);
      TwoAccepted(TypeValueType, TypeDefOrRef(t.value.0), t.value.1);
    }
    if n.Some? {
      OneAccepted(TypeGenericTypeVariable(n.value.0), n.value.1);
      OneAccepted(TypeGenericMemberVariable(n.value.0), n.value.1);
    }
  }

  lemma {:induction false} FunctionPointerAccepted(s: seq<byte>)
    ensures NestedResult(ParseTypeInner(FNPTR, s))
    decreases |s|, 2
  {
    hide Nested, NestedResult, Then, ParseMethod;
    Rejected();
    if s != [] {
      MethodAccepted(s[0], s[1..]);
      PlainThenNested(TypeFunctionPointer, ParseMethod(s[0], s[1..]));
    }
  }

  lemma {:induction false} TypeInnerAccepted(e: byte, s: seq<byte>)
    ensures NestedResult(ParseTypeInner(e, s))
    decreases |s|, 3
  {
    hide NestedResult, ParseTypeInner;
    if e == PTR {
      PointerAccepted(s);
    } else if e == FNPTR {
      FunctionPointerAccepted(s);
    } else if e == ARRAY || e == SZARRAY {
      ArraysAccepted(s);
    } else if e == GENERICINST {
      GenericAccepted(s);
    } else {
      LeafAccepted(e, s);
    }
  }

  lemma {:induction false} TypesAccepted(s: seq<byte>, n: nat)
    ensures NestedResult(ParseTypes(s, n))
    decreases |s|, 2, n
  {
    hide Nested, Then, ParseType;
    NoneAccepted(s);
    if n > 0 {
      var t := ParseType(s);
      TypeAccepted(s);
      if t.Some? {
        TypesAccepted(t.value.rest, n - 1);
        ThenNested(t.value.events, ParseTypes(t.value.rest, n - 1));
      }
    }
  }

  lemma {:induction false} SlotAccepted(s: seq<byte>, ret: bool)
    ensures NestedResult(ParseSlot(s, ret))
    decreases |s|, 2
  {
    hide Nested, NestedResult, Then, ParseType;
    Rejected();
    if s != [] {
      OneAccepted(TypedByrefSeen, s[1..]);
      OneAccepted(VoidSeen, s[1..]);
      TypeAccepted(s[1..]);
      PlainThenNested(ByrefSeen, ParseType(s[1..]));
      TypeAccepted(s);
    }
  }

  lemma {:induction false} ParamAccepted(s: seq<byte>, ret: bool)
    ensures NestedResult(ParseParam(s, ret))
    decreases |s|, 3
  {
    hide Nested, Then, Finish, ParseMods, ParseSlot;
    ModsAccepted(s);
    var mods := ParseMods(s);
    if mods.Some? {
      SlotAccepted(mods.value.rest, ret);
      WrappedNested(KindOf(ret), 0, mods.value.events, ParseSlot(mods.value.rest, ret));
    }
  }

  lemma {:induction false} ParamsAccepted(s: seq<byte>, n: nat, seen: bool)
    ensures NestedResult(ParseParams(s, n, seen))
    decreases |s|, 4, n
  {
    hide Nested, Then, ParseParam;
    NoneAccepted(s);
    if n > 0 && s != [] {
      if s[0] == SENTINEL {
        var p := ParseParam(s[1..], false);
        ParamAccepted(s[1..], false);
        if !seen && p.Some? {
          ParamsAccepted(p.value.rest, n - 1, true);
          TwoPartsNested(Sentinel, p, ParseParams(p.value.rest, n - 1, true));
        }
      } else {
        var p := ParseParam(s, false);
        ParamAccepted(s, false);
        if p.Some? {
          ParamsAccepted(p.value.rest, n - 1, seen);
          ThenNested(p.value.events, ParseParams(p.value.rest, n - 1, seen));
        }
      }
    }
  }

  lemma {:induction false} SignatureAccepted(s: seq<byte>)
    ensures NestedResult(ParseSignature(s))
    decreases |s|, 5
  {
    hide Nested, NestedResult, Then, ReadNumber, ParseParam, ParseParams;
    Rejected();
    var n := ReadNumber(s);
    if n.Some? {
      var ret := ParseParam(n.value.1, true);
      ParamAccepted(n.value.1, true);
      if ret.Some? {
        ParamsAccepted(ret.value.rest, n.value.0, false);
        TwoPartsNested(Count(InParam, n.value.0), ret, ParseParams(ret.value.rest, n.value.0, false));
      }
    }
  }

  lemma {:induction false} MethodAccepted(e: byte, s: seq<byte>)
    ensures NestedResult(ParseMethod(e, s))
    decreases |s|, 6
  {
    hide Nested, NestedResult, Then, Finish, ReadNumber, ParseSignature;
    Rejected();
    if IsGeneric(e) {
      var g := ReadNumber(s);
      if g.Some? {
        SignatureAccepted(g.value.1);
        NestedPlain(GenericParamCount(g.value.0));
        WrappedNested(InMethod, e, [GenericParamCount(g.value.0)], ParseSignature(g.value.1));
        assert [Begin(InMethod, e)] + [GenericParamCount(g.value.0)] == [Begin(InMethod, e), GenericParamCount(g.value.0)];
      }
    } else {
      SignatureAccepted(s);
      WrappedOnly(InMethod, e, ParseSignature(s));
    }
  }

  lemma {:induction false} PropertyParamsAccepted(s: seq<byte>, n: nat)
    ensures NestedResult(ParsePropertyParams(s, n))
    decreases n
  {
    hide Nested, Then, ParseParam;
    NoneAccepted(s);
    if n > 0 {
      var p := ParseParam(s, false);
      ParamAccepted(s, false);
      if p.Some? {
        PropertyParamsAccepted(p.value.rest, n - 1);
        ThenNested(p.value.events, ParsePropertyParams(p.value.rest, n - 1));
      }
    }
  }

  lemma {:induction false} LocalAccepted(s: seq<byte>)
    ensures NestedResult(ParseLocal(s))
  {
    hide Nested, Then, Finish, ParseModsOrConstraint, ParseType;
    if s != [] {
      if s[0] == TYPEDBYREF {
        NestedPlain(TypedByrefSeen);
        NestedWrap(InLocal, 0, [TypedByrefSeen]);
        assert [Begin(InLocal, 0)] + [TypedByrefSeen] + [End(InLocal)] == [Open(InLocal), TypedByrefSeen, End(InLocal)];
      } else {
        var mods := ParseModsOrConstraint(s);
        ModsOrConstraintAccepted(s);
        if mods.Some? && mods.value.rest != [] {
          var rest := mods.value.rest;
          TypeAccepted(rest);
          TypeAccepted(rest[1..]);
          NestedPlain(ByrefSeen);
          NestedAppend(mods.value.events, [ByrefSeen]);
          WrappedNested(InLocal, 0, mods.value.events, ParseType(rest));
          WrappedNested(InLocal, 0, mods.value.events + [ByrefSeen], ParseType(rest[1..]));
          assert [Open(InLocal)] + (mods.value.events + [ByrefSeen]) == [Open(InLocal)] + mods.value.events + [ByrefSeen];
        }
      }
    }
  }

  lemma {:induction false} LocalListAccepted(s: seq<byte>, n: nat)
    ensures NestedResult(ParseLocalList(s, n))
    decreases n
  {
    hide Nested, Then, ParseLocal;
    NoneAccepted(s);
    if n > 0 {
      var l := ParseLocal(s);
      LocalAccepted(s);
      if l.Some? {
        LocalListAccepted(l.value.rest, n - 1);
        ThenNested(l.value.events, ParseLocalList(l.value.rest, n - 1));
      }
    }
  }

  lemma {:induction false} FieldAccepted(e: byte, s: seq<byte>)
    ensures NestedResult(FieldPart(e, s))
  {
    hide Nested, Then, Finish, ParseMods, ParseType;
    var mods := ParseMods(s);
    ModsAccepted(s);
    if mods.Some? {
      TypeAccepted(mods.value.rest);
      WrappedNested(InField, e, mods.value.events, ParseType(mods.value.rest));
    }
  }

  lemma {:induction false} LocalsAccepted(e: byte, s: seq<byte>)
    ensures NestedResult(LocalsPart(e, s))
  {
    hide Nested, Then, Finish, ReadNumber, ParseLocalList;
    var n := ReadNumber(s);
    if n.Some? {
      LocalListAccepted(n.value.1, n.value.0);
      NestedPlain(Count(InLocal, n.value.0));
      WrappedNested(InLocals, e, [Count(InLocal, n.value.0)], ParseLocalList(n.value.1, n.value.0));
      assert [Begin(InLocals, e)] + [Count(InLocal, n.value.0)] == [Begin(InLocals, e), Count(InLocal, n.value.0)];
    }
  }

  lemma {:induction false} PropertyFront(e: byte, n: nat, mods: Result, u: Result, r: Result)
    requires mods.Some? && u.Some? && NestedResult(mods) && NestedResult(u) && NestedResult(r)
    ensures NestedResult(Finish(Then([Begin(InProperty, e), Count(InParam, n)] + mods.value.events + u.value.events, r), End(InProperty)))
  {
    hide Nested, Then, Finish;
    var c := [Count(InParam, n)];
    NestedPlain(Count(InParam, n));
    NestedAppend(c, mods.value.events);
    NestedAppend(c + mods.value.events, u.value.events);
    WrappedNested(InProperty, e, c + mods.value.events + u.value.events, r);
    PropertyRegroup(e, n, mods.value.events, u.value.events);
  }

  lemma {:induction false} PropertyRegroup(e: byte, n: nat, a: seq<Event>, b: seq<Event>)
    ensures [Begin(InProperty, e), Count(InParam, n)] + a + b == [Begin(InProperty, e)] + ([Count(InParam, n)] + a + b)
  {
  }

  lemma {:induction false} PropertyAccepted(e: byte, s: seq<byte>)
    ensures NestedResult(PropertyPart(e, s))
  {
    hide Nested, NestedResult, Then, Finish, ReadNumber, ParseMods, ParseType, ParsePropertyParams;
    Rejected();
    var n := ReadNumber(s);
    if n.Some? {
      var mods := ParseMods(n.value.1);
      ModsAccepted(n.value.1);
      if mods.Some? {
        var u := ParseType(mods.value.rest);
        TypeAccepted(mods.value.rest);
        if u.Some? {
          PropertyParamsAccepted(u.value.rest, n.value.0);
          PropertyFront(e, n.value.0, mods, u, ParsePropertyParams(u.value.rest, n.value.0));
        }
      }
    }
  }

  /** Every accepted blob, in the grammar or not, gives properly nested notifications. */
  lemma {:induction false} AcceptedIsNested(s: seq<byte>)
    ensures Parse(s).Some? ==> Nested(Parse(s).value.events)
  {
    hide Nested, ParseMethod, FieldPart, LocalsPart, PropertyPart;
    if s != [] {
      MethodAccepted(s[0], s[1..]);
      FieldAccepted(s[0], s[1..]);
      LocalsAccepted(s[0], s[1..]);
      PropertyAccepted(s[0], s[1..]);
    }
  }
}
