/** Signature trees of section II.23.2 of ECMA-335, their blobs and the
    notifications a parser has to give for them. */
module SigGrammar {
  import opened Wrappers
  import opened Bytes

  const VOID: byte := 0x01
  const STRING: byte := 0x0e
  const PTR: byte := 0x0f
  const BYREF: byte := 0x10
  const VALUETYPE: byte := 0x11
  const CLASS: byte := 0x12
  const VAR: byte := 0x13
  const ARRAY: byte := 0x14
  const GENERICINST: byte := 0x15
  const TYPEDBYREF: byte := 0x16
  const FNPTR: byte := 0x1b
  const OBJECT: byte := 0x1c
  const SZARRAY: byte := 0x1d
  const MVAR: byte := 0x1e
  const CMOD_REQD: byte := 0x1f
  const CMOD_OPT: byte := 0x20
  const SENTINEL: byte := 0x41
  const PINNED: byte := 0x45

  /** BOOLEAN to R8, STRING, I, U and OBJECT. */
  predicate IsSimple(e: byte) {
    0x02 <= e <= STRING || e == 0x18 || e == 0x19 || e == OBJECT
  }

  /** The generic bit of a method's calling convention byte. */
  predicate IsGeneric(e: byte) {
    (e / 16) % 2 == 1
  }

  predicate IsMethodKind(e: byte) { e % 16 <= 5 }

  // ----- numbers and tokens (sections II.23.2 and II.23.2.8) -----

  const LIMIT: nat := 0x2000_0000

  function Number(n: nat): seq<byte>
    requires n < LIMIT
  {
    if n < 0x80 then [n]
    else if n < 0x4000 then [0x80 + n / 0x100, n % 0x100]
    else [0xC0 + n / 0x100_0000, (n / 0x1_0000) % 0x100, (n / 0x100) % 0x100, n % 0x100]
  }

  /** Table (type definition, reference or specification) and row of a type. */
  datatype Token = Token(tag: nat, row: nat)

  predicate TokenOk(t: Token) { t.tag < 4 && 4 * t.row + t.tag < LIMIT }

  function TokenBytes(t: Token): seq<byte>
    requires TokenOk(t)
  {
    Number(4 * t.row + t.tag)
  }

  // ----- trees -----

  datatype Mod = Mod(required: bool, token: Token)

  datatype Shape = Shape(rank: nat, sizes: seq<nat>, loBounds: seq<nat>)

  datatype Type =
    | Simple(elem: byte)
    | VoidPointer(mods: seq<Mod>)
    | Pointer(mods: seq<Mod>, to: Type)
    | Class(token: Token)
    | ValueType(token: Token)
    | FunctionPointer(m: Method)
    | Array(of: Type, shape: Shape)
    | SzArray(mods: seq<Mod>, of: Type)
    | GenericInst(kind: byte, token: Token, args: seq<Type>)
    | TypeVariable(n: nat)
    | MemberVariable(n: nat)

  /** What a parameter, a return value or a local holds. */
  datatype Slot = VoidSlot | TypedByref | Slot(byref: bool, t: Type)

  datatype Param = Param(mods: seq<Mod>, slot: Slot)

  datatype Method = Method(elem: byte, genericParams: nat, ret: Param, params: seq<Param>, sentinel: Option<nat>)

  datatype LocalMod = CustomMod(mod: Mod) | Pinned

  datatype Local = LocalTypedByref | Local(lmods: seq<LocalMod>, byref: bool, t: Type)

  datatype Sig =
    | MethodSig(m: Method)
    | FieldSig(elem: byte, mods: seq<Mod>, t: Type)
    | PropertySig(elem: byte, mods: seq<Mod>, t: Type, params: seq<Param>)
    | LocalsSig(elem: byte, locals: seq<Local>)

  predicate ModsOk(ms: seq<Mod>) {
    forall i :: 0 <= i < |ms| ==> TokenOk(ms[i].token)
  }

  predicate ShapeOk(s: Shape) {
    && s.rank < LIMIT && |s.sizes| < LIMIT && |s.loBounds| < LIMIT
    && (forall i :: 0 <= i < |s.sizes| ==> s.sizes[i] < LIMIT)
    && (forall i :: 0 <= i < |s.loBounds| ==> s.loBounds[i] < LIMIT)
  }

  predicate TypeOk(t: Type)
    decreases t, 1
  {
    match t
    case Simple(e) => IsSimple(e)
    case VoidPointer(mods) => ModsOk(mods)
    case Pointer(mods, u) => ModsOk(mods) && TypeOk(u)
    case Class(token) => TokenOk(token)
    case ValueType(token) => TokenOk(token)
    case FunctionPointer(m) => MethodOk(m)
    case Array(u, shape) => TypeOk(u) && ShapeOk(shape)
    case SzArray(mods, u) => ModsOk(mods) && TypeOk(u)
    case GenericInst(kind, token, args) =>
      (kind == CLASS || kind == VALUETYPE) && TokenOk(token) && |args| < LIMIT
      && forall i :: 0 <= i < |args| ==> TypeOk(args[i])
    case TypeVariable(n) => n < LIMIT
    case MemberVariable(n) => n < LIMIT
  }

  predicate SlotOk(s: Slot)
    decreases s, 2
  {
    s.Slot? ==> TypeOk(s.t)
  }

  predicate RetOk(p: Param)
    decreases p, 3
  {
    ModsOk(p.mods) && SlotOk(p.slot)
  }

  /** A parameter is not void. */
  predicate ParamOk(p: Param)
    decreases p, 4
  {
    RetOk(p) && !p.slot.VoidSlot?
  }

  predicate MethodOk(m: Method)
    decreases m, 5
  {
    && |m.params| < LIMIT && m.genericParams < LIMIT
    && (!IsGeneric(m.elem) ==> m.genericParams == 0)
    && RetOk(m.ret) && (forall i :: 0 <= i < |m.params| ==> ParamOk(m.params[i]))
    && (m.sentinel.Some? ==> m.sentinel.value < |m.params|)
  }

  predicate LocalOk(l: Local) {
    l.Local? ==> TypeOk(l.t) && forall i :: 0 <= i < |l.lmods| && l.lmods[i].CustomMod? ==> TokenOk(l.lmods[i].mod.token)
  }

  predicate SigOk(s: Sig) {
    match s
    case MethodSig(m) => IsMethodKind(m.elem) && MethodOk(m)
    case FieldSig(e, mods, t) => e % 16 == 6 && ModsOk(mods) && TypeOk(t)
    case PropertySig(e, mods, t, params) =>
      e % 16 == 8 && ModsOk(mods) && TypeOk(t) && |params| < LIMIT && forall i :: 0 <= i < |params| ==> ParamOk(params[i])
    case LocalsSig(e, locals) =>
      e % 16 == 7 && |locals| < LIMIT && forall i :: 0 <= i < |locals| ==> LocalOk(locals[i])
  }

  // ----- blobs -----

  function ModsBytes(ms: seq<Mod>): seq<byte>
    requires ModsOk(ms)
  {
    if ms == [] then []
    else [if ms[0].required then CMOD_REQD else CMOD_OPT] + TokenBytes(ms[0].token) + ModsBytes(ms[1..])
  }

  function NumbersBytes(ns: seq<nat>): seq<byte>
    requires forall i :: 0 <= i < |ns| ==> ns[i] < LIMIT
  {
    if ns == [] then [] else Number(ns[0]) + NumbersBytes(ns[1..])
  }

  function ShapeBytes(s: Shape): seq<byte>
    requires ShapeOk(s)
  {
    Number(s.rank) + (Number(|s.sizes|) + NumbersBytes(s.sizes)) + (Number(|s.loBounds|) + NumbersBytes(s.loBounds))
  }

  function TypeBytes(t: Type): seq<byte>
    requires TypeOk(t)
    decreases t, 1
  {
    match t
    case Simple(e) => [e]
    case VoidPointer(mods) => [PTR] + ModsBytes(mods) + [VOID]
    case Pointer(mods, u) => [PTR] + ModsBytes(mods) + TypeBytes(u)
    case Class(token) => [CLASS] + TokenBytes(token)
    case ValueType(token) => [VALUETYPE] + TokenBytes(token)
    case FunctionPointer(m) => [FNPTR, m.elem] + MethodBytes(m)
    case Array(u, shape) => [ARRAY] + TypeBytes(u) + ShapeBytes(shape)
    case SzArray(mods, u) => [SZARRAY] + ModsBytes(mods) + TypeBytes(u)
    case GenericInst(kind, token, args) => [GENERICINST, kind] + TokenBytes(token) + Number(|args|) + TypesBytes(args)
    case TypeVariable(n) => [VAR] + Number(n)
    case MemberVariable(n) => [MVAR] + Number(n)
  }

  function TypesBytes(ts: seq<Type>): seq<byte>
    requires forall i :: 0 <= i < |ts| ==> TypeOk(ts[i])
    decreases ts, 0
  {
    if ts == [] then [] else TypeBytes(ts[0]) + TypesBytes(ts[1..])
  }

  function SlotBytes(s: Slot): seq<byte>
    requires SlotOk(s)
    decreases s, 2
  {
    match s
    case VoidSlot => [VOID]
    case TypedByref => [TYPEDBYREF]
    case Slot(byref, t) => (if byref then [BYREF] else []) + TypeBytes(t)
  }

  function ParamBytes(p: Param): seq<byte>
    requires RetOk(p)
    decreases p, 3
  {
    ModsBytes(p.mods) + SlotBytes(p.slot)
  }

  /** Parameters with the sentinel in front of parameter number sentinel, if any. */
  function ParamsBytes(ps: seq<Param>, sentinel: Option<nat>): seq<byte>
    requires forall i :: 0 <= i < |ps| ==> ParamOk(ps[i])
    decreases ps, 0
  {
    if ps == [] then []
    else
      assert ParamOk(ps[0]);
      (if sentinel == Some(0) then [SENTINEL] else []) + ParamBytes(ps[0]) + ParamsBytes(ps[1..], Earlier(sentinel))
  }

  /** A sentinel position seen from one parameter further on. */
  function Earlier(sentinel: Option<nat>): Option<nat> {
    if sentinel.Some? && sentinel.value > 0 then Some(sentinel.value - 1) else None
  }

  /** The part of a method signature behind the calling convention byte. */
  function MethodBytes(m: Method): seq<byte>
    requires MethodOk(m)
    decreases m, 5
  {
    (if IsGeneric(m.elem) then Number(m.genericParams) else []) + Number(|m.params|)
    + ParamBytes(m.ret) + ParamsBytes(m.params, m.sentinel)
  }

  function LocalModsBytes(ms: seq<LocalMod>): seq<byte>
    requires forall i :: 0 <= i < |ms| && ms[i].CustomMod? ==> TokenOk(ms[i].mod.token)
  {
    if ms == [] then []
    else (if ms[0].Pinned? then [PINNED] else ModsBytes([ms[0].mod])) + LocalModsBytes(ms[1..])
  }

  function LocalBytes(l: Local): seq<byte>
    requires LocalOk(l)
  {
    match l
    case LocalTypedByref => [TYPEDBYREF]
    case Local(lmods, byref, t) => LocalModsBytes(lmods) + SlotBytes(Slot(byref, t))
  }

  function LocalsBytes(ls: seq<Local>): seq<byte>
    requires forall i :: 0 <= i < |ls| ==> LocalOk(ls[i])
  {
    if ls == [] then [] else LocalBytes(ls[0]) + LocalsBytes(ls[1..])
  }

  function SigBytes(s: Sig): seq<byte>
    requires SigOk(s)
  {
    match s
    case MethodSig(m) => [m.elem] + MethodBytes(m)
    case FieldSig(e, mods, t) => [e] + ModsBytes(mods) + TypeBytes(t)
    case PropertySig(e, mods, t, params) => [e] + Number(|params|) + ModsBytes(mods) + TypeBytes(t) + ParamsBytes(params, None)
    case LocalsSig(e, locals) => [e] + Number(|locals|) + LocalsBytes(locals)
  }

  // ----- notifications -----

  datatype Kind = InMethod | InRetType | InParam | InField | InLocals | InLocal | InProperty | InArrayShape | InType

  datatype Event =
    | Begin(kind: Kind, elem: byte)
    | End(endOf: Kind)
    | Count(what: Kind, n: nat)
    | GenericParamCount(n: nat)
    | Sentinel
    | Rank(n: nat) | NumSizes(n: nat) | Size(n: nat) | NumLoBounds(n: nat) | LoBound(n: nat)
    | Constraint(elem: byte)
    | TypedByrefSeen | ByrefSeen | VoidSeen
    | CustomModSeen(cmod: byte, token: Token)
    | TypeSimple(elem: byte)
    | TypeDefOrRef(token: Token)
    | TypeGenericInst(elem: byte, token: Token, n: nat)
    | TypeGenericTypeVariable(n: nat) | TypeGenericMemberVariable(n: nat)
    | TypeValueType | TypeClass | TypePointer | TypeFunctionPointer | TypeArray | TypeSzArray

  /** Kinds whose Begin carries no calling convention or element byte. */
  function Open(k: Kind): Event { Begin(k, 0) }

  function ModsEvents(ms: seq<Mod>): seq<Event> {
    if ms == [] then []
    else [CustomModSeen(if ms[0].required then CMOD_REQD else CMOD_OPT, ms[0].token)] + ModsEvents(ms[1..])
  }

  function SizesEvents(ns: seq<nat>): seq<Event> {
    if ns == [] then [] else [Size(ns[0])] + SizesEvents(ns[1..])
  }

  function LoBoundsEvents(ns: seq<nat>): seq<Event> {
    if ns == [] then [] else [LoBound(ns[0])] + LoBoundsEvents(ns[1..])
  }

  function ShapeEvents(s: Shape): seq<Event> {
    [Open(InArrayShape), Rank(s.rank), NumSizes(|s.sizes|)] + SizesEvents(s.sizes)
    + [NumLoBounds(|s.loBounds|)] + LoBoundsEvents(s.loBounds) + [End(InArrayShape)]
  }

  function TypeEvents(t: Type): seq<Event>
    decreases t, 1
  {
    [Open(InType)] +
    (match t
     case Simple(e) => [TypeSimple(e)]
     case VoidPointer(mods) => [TypePointer] + ModsEvents(mods) + [VoidSeen]
     case Pointer(mods, u) => [TypePointer] + ModsEvents(mods) + TypeEvents(u)
     case Class(token) => [TypeClass, TypeDefOrRef(token)]
     case ValueType(token) => [TypeValueType, TypeDefOrRef(token)]
     case FunctionPointer(m) => [TypeFunctionPointer] + MethodEvents(m)
     case Array(u, shape) => [TypeArray] + TypeEvents(u) + ShapeEvents(shape)
     case SzArray(mods, u) => [TypeSzArray] + ModsEvents(mods) + TypeEvents(u)
     case GenericInst(kind, token, args) => [TypeGenericInst(kind, token, |args|)] + TypesEvents(args)
     case TypeVariable(n) => [TypeGenericTypeVariable(n)]
     case MemberVariable(n) => [TypeGenericMemberVariable(n)])
    + [End(InType)]
  }

  function TypesEvents(ts: seq<Type>): seq<Event>
    decreases ts, 0
  {
    if ts == [] then [] else TypeEvents(ts[0]) + TypesEvents(ts[1..])
  }

  function SlotEvents(s: Slot): seq<Event>
    decreases s, 2
  {
    match s
    case VoidSlot => [VoidSeen]
    case TypedByref => [TypedByrefSeen]
    case Slot(byref, t) => (if byref then [ByrefSeen] else []) + TypeEvents(t)
  }

  function ParamEvents(k: Kind, p: Param): seq<Event>
    decreases p, 3
  {
    [Open(k)] + ModsEvents(p.mods) + SlotEvents(p.slot) + [End(k)]
  }

  function ParamsEvents(ps: seq<Param>, sentinel: Option<nat>): seq<Event>
    decreases ps, 0
  {
    if ps == [] then []
    else (if sentinel == Some(0) then [Sentinel] else []) + ParamEvents(InParam, ps[0]) + ParamsEvents(ps[1..], Earlier(sentinel))
  }

  function MethodEvents(m: Method): seq<Event>
    decreases m, 5
  {
    [Begin(InMethod, m.elem)] + (if IsGeneric(m.elem) then [GenericParamCount(m.genericParams)] else [])
    + [Count(InParam, |m.params|)] + ParamEvents(InRetType, m.ret) + ParamsEvents(m.params, m.sentinel) + [End(InMethod)]
  }

  function LocalModsEvents(ms: seq<LocalMod>): seq<Event> {
    if ms == [] then []
    else (if ms[0].Pinned? then [Constraint(PINNED)] else ModsEvents([ms[0].mod])) + LocalModsEvents(ms[1..])
  }

  function LocalEvents(l: Local): seq<Event> {
    [Open(InLocal)]
    + (match l
       case LocalTypedByref => [TypedByrefSeen]
       case Local(lmods, byref, t) => LocalModsEvents(lmods) + SlotEvents(Slot(byref, t)))
    + [End(InLocal)]
  }

  function LocalsEvents(ls: seq<Local>): seq<Event> {
    if ls == [] then [] else LocalEvents(ls[0]) + LocalsEvents(ls[1..])
  }

  function SigEvents(s: Sig): seq<Event> {
    match s
    case MethodSig(m) => MethodEvents(m)
    case FieldSig(e, mods, t) => [Begin(InField, e)] + ModsEvents(mods) + TypeEvents(t) + [End(InField)]
    case PropertySig(e, mods, t, params) =>
      [Begin(InProperty, e), Count(InParam, |params|)] + ModsEvents(mods) + TypeEvents(t) + ParamsEvents(params, None) + [End(InProperty)]
    case LocalsSig(e, locals) => [Begin(InLocals, e), Count(InLocal, |locals|)] + LocalsEvents(locals) + [End(InLocals)]
  }

  // ----- proper nesting -----

  function Bracket(open: seq<Kind>, e: Event): Option<seq<Kind>> {
    if e.Begin? then Some(open + [e.kind])
    else if !e.End? then Some(open)
    else if open == [] || open[|open| - 1] != e.endOf then None
    else Some(open[..|open| - 1])
  }

  /** Open brackets after reading some events, or None if an End does not match. */
  function Brackets(open: seq<Kind>, es: seq<Event>): Option<seq<Kind>>
    decreases |es|
  {
    if es == [] then Some(open)
    else
      var next := Bracket(open, es[0]);
      if next.None? then None else Brackets(next.value, es[1..])
  }

  ghost predicate Nested(es: seq<Event>) {
    forall open :: Brackets(open, es) == Some(open)
  }

  lemma {:induction false} BracketsAppend(open: seq<Kind>, a: seq<Event>, b: seq<Event>)
    ensures Brackets(open, a + b) == if Brackets(open, a).None? then None else Brackets(Brackets(open, a).value, b)
    decreases |a|
  {
    hide Bracket;
    if a == [] {
      assert a + b == b;
    } else {
      assert (a + b)[1..] == a[1..] + b && (a + b)[0] == a[0];
      var next := Bracket(open, a[0]);
      if next.Some? {
        BracketsAppend(next.value, a[1..], b);
      }
    }
  }

  lemma {:induction false} NestedAppend(a: seq<Event>, b: seq<Event>)
    requires Nested(a) && Nested(b)
    ensures Nested(a + b)
  {
    forall open ensures Brackets(open, a + b) == Some(open) {
      BracketsAppend(open, a, b);
    }
  }

  lemma {:induction false} NestedPlain(e: Event)
    requires !e.Begin? && !e.End?
    ensures Nested([e])
  {
    forall open ensures Brackets(open, [e]) == Some(open) {
      assert [e][1..] == [];
    }
  }

  lemma {:induction false} BracketsWrap(open: seq<Kind>, k: Kind, elem: byte, es: seq<Event>)
    requires Brackets(open + [k], es) == Some(open + [k])
    ensures Brackets(open, [Begin(k, elem)] + es + [End(k)]) == Some(open)
  {
    var all := [Begin(k, elem)] + es + [End(k)];
    assert all[0] == Begin(k, elem) && all[1..] == es + [End(k)];
    BracketsAppend(open + [k], es, [End(k)]);
    assert [End(k)][1..] == [];
    assert (open + [k])[..|open|] == open;
  }

  lemma {:induction false} NestedWrap(k: Kind, elem: byte, es: seq<Event>)
    requires Nested(es)
    ensures Nested([Begin(k, elem)] + es + [End(k)])
  {
    hide Brackets;
    forall open ensures Brackets(open, [Begin(k, elem)] + es + [End(k)]) == Some(open) {
      BracketsWrap(open, k, elem, es);
    }
  }

  lemma {:induction false} NestedNone()
    ensures Nested([])
  {
  }

  lemma {:induction false} ModsNested(ms: seq<Mod>)
    ensures Nested(ModsEvents(ms))
  {
    hide Nested;
    NestedNone();
    if ms != [] {
      ModsNested(ms[1..]);
      var e := CustomModSeen(if ms[0].required then CMOD_REQD else CMOD_OPT, ms[0].token);
      NestedPlain(e);
      NestedAppend([e], ModsEvents(ms[1..]));
    }
  }

  lemma {:induction false} SizesNested(ns: seq<nat>)
    ensures Nested(SizesEvents(ns)) && Nested(LoBoundsEvents(ns))
  {
    hide Nested;
    NestedNone();
    if ns != [] {
      SizesNested(ns[1..]);
      NestedPlain(Size(ns[0]));
      NestedAppend([Size(ns[0])], SizesEvents(ns[1..]));
      NestedPlain(LoBound(ns[0]));
      NestedAppend([LoBound(ns[0])], LoBoundsEvents(ns[1..]));
    }
  }

  lemma {:induction false} ShapeNested(s: Shape)
    ensures Nested(ShapeEvents(s))
  {
    hide Nested;
    SizesNested(s.sizes);
    SizesNested(s.loBounds);
    NestedPlain(Rank(s.rank));
    NestedPlain(NumSizes(|s.sizes|));
    NestedPlain(NumLoBounds(|s.loBounds|));
    var a := [Rank(s.rank)] + [NumSizes(|s.sizes|)];
    NestedAppend([Rank(s.rank)], [NumSizes(|s.sizes|)]);
    NestedAppend(a, SizesEvents(s.sizes));
    NestedAppend(a + SizesEvents(s.sizes), [NumLoBounds(|s.loBounds|)]);
    var inner := a + SizesEvents(s.sizes) + [NumLoBounds(|s.loBounds|)] + LoBoundsEvents(s.loBounds);
    NestedAppend(a + SizesEvents(s.sizes) + [NumLoBounds(|s.loBounds|)], LoBoundsEvents(s.loBounds));
    NestedWrap(InArrayShape, 0, inner);
    assert ShapeEvents(s) == [Begin(InArrayShape, 0)] + inner + [End(InArrayShape)];
  }

  /** What stands between the Begin and the End of a type. */
  function TypeInner(t: Type): seq<Event> {
    match t
    case Simple(e) => [TypeSimple(e)]
    case VoidPointer(mods) => [TypePointer] + ModsEvents(mods) + [VoidSeen]
    case Pointer(mods, u) => [TypePointer] + ModsEvents(mods) + TypeEvents(u)
    case Class(token) => [TypeClass] + [TypeDefOrRef(token)]
    case ValueType(token) => [TypeValueType] + [TypeDefOrRef(token)]
    case FunctionPointer(m) => [TypeFunctionPointer] + MethodEvents(m)
    case Array(u, shape) => [TypeArray] + TypeEvents(u) + ShapeEvents(shape)
    case SzArray(mods, u) => [TypeSzArray] + ModsEvents(mods) + TypeEvents(u)
    case GenericInst(kind, token, args) => [TypeGenericInst(kind, token, |args|)] + TypesEvents(args)
    case TypeVariable(n) => [TypeGenericTypeVariable(n)]
    case MemberVariable(n) => [TypeGenericMemberVariable(n)]
  }

  lemma {:induction false} NestedThree(e: Event, a: seq<Event>, b: seq<Event>)
    requires !e.Begin? && !e.End? && Nested(a) && Nested(b)
    ensures Nested([e] + a) && Nested([e] + a + b)
  {
    hide Nested;
    NestedPlain(e);
    NestedAppend([e], a);
    NestedAppend([e] + a, b);
  }

  /** Every Begin has its End, properly nested, in types ... */
  lemma {:induction false} TypeNested(t: Type)
    ensures Nested(TypeEvents(t))
    decreases t, 1
  {
    hide Nested, ModsEvents, ShapeEvents, MethodEvents, TypesEvents;
    var inner := TypeInner(t);
    NestedNone();
    assert Nested(inner) by {
      match t
      case Simple(e) => NestedPlain(TypeSimple(e));
      case VoidPointer(mods) => ModsNested(mods); NestedPlain(VoidSeen); NestedThree(TypePointer, ModsEvents(mods), [VoidSeen]);
      case Pointer(mods, u) => ModsNested(mods); TypeNested(u); NestedThree(TypePointer, ModsEvents(mods), TypeEvents(u));
      case Class(token) => NestedPlain(TypeDefOrRef(token)); NestedThree(TypeClass, [TypeDefOrRef(token)], []);
      case ValueType(token) => NestedPlain(TypeDefOrRef(token)); NestedThree(TypeValueType, [TypeDefOrRef(token)], []);
      case FunctionPointer(m) => MethodNested(m); NestedThree(TypeFunctionPointer, MethodEvents(m), []);
      case Array(u, shape) => TypeNested(u); ShapeNested(shape); NestedThree(TypeArray, TypeEvents(u), ShapeEvents(shape));
      case SzArray(mods, u) => ModsNested(mods); TypeNested(u); NestedThree(TypeSzArray, ModsEvents(mods), TypeEvents(u));
      case GenericInst(kind, token, args) => TypesNested(args); NestedThree(TypeGenericInst(kind, token, |args|), TypesEvents(args), []);
      case TypeVariable(n) => NestedPlain(TypeGenericTypeVariable(n));
      case MemberVariable(n) => NestedPlain(TypeGenericMemberVariable(n));
    }
    NestedWrap(InType, 0, inner);
    assert TypeEvents(t) == [Begin(InType, 0)] + inner + [End(InType)];
  }

  lemma {:induction false} TypesNested(ts: seq<Type>)
    ensures Nested(TypesEvents(ts))
    decreases ts, 0
  {
    hide Nested, TypeEvents;
    NestedNone();
    if ts != [] {
      TypeNested(ts[0]);
      TypesNested(ts[1..]);
      NestedAppend(TypeEvents(ts[0]), TypesEvents(ts[1..]));
    }
  }

  lemma {:induction false} SlotNested(s: Slot)
    ensures Nested(SlotEvents(s))
    decreases s, 2
  {
    hide Nested, TypeEvents;
    match s
    case VoidSlot => NestedPlain(VoidSeen);
    case TypedByref => NestedPlain(TypedByrefSeen);
    case Slot(byref, t) =>
      TypeNested(t);
      NestedNone();
      NestedPlain(ByrefSeen);
      NestedAppend(if byref then [ByrefSeen] else [], TypeEvents(t));
  }

  lemma {:induction false} ParamNested(k: Kind, p: Param)
    ensures Nested(ParamEvents(k, p))
    decreases p, 3
  {
    hide Nested, ModsEvents, SlotEvents;
    ModsNested(p.mods);
    SlotNested(p.slot);
    NestedAppend(ModsEvents(p.mods), SlotEvents(p.slot));
    NestedWrap(k, 0, ModsEvents(p.mods) + SlotEvents(p.slot));
    assert ParamEvents(k, p) == [Begin(k, 0)] + (ModsEvents(p.mods) + SlotEvents(p.slot)) + [End(k)];
  }

  lemma {:induction false} ParamsNested(ps: seq<Param>, sentinel: Option<nat>)
    ensures Nested(ParamsEvents(ps, sentinel))
    decreases ps, 0
  {
    hide Nested, ParamEvents;
    NestedNone();
    if ps != [] {
      NestedPlain(Sentinel);
      ParamNested(InParam, ps[0]);
      ParamsNested(ps[1..], Earlier(sentinel));
      var s := if sentinel == Some(0) then [Sentinel] else [];
      NestedAppend(s, ParamEvents(InParam, ps[0]));
      NestedAppend(s + ParamEvents(InParam, ps[0]), ParamsEvents(ps[1..], Earlier(sentinel)));
    }
  }

  /** ... in methods ... */
  lemma {:induction false} MethodNested(m: Method)
    ensures Nested(MethodEvents(m))
    decreases m, 5
  {
    hide Nested, ParamEvents, ParamsEvents;
    NestedNone();
    NestedPlain(GenericParamCount(m.genericParams));
    NestedPlain(Count(InParam, |m.params|));
    ParamNested(InRetType, m.ret);
    ParamsNested(m.params, m.sentinel);
    var g := if IsGeneric(m.elem) then [GenericParamCount(m.genericParams)] else [];
    var c := [Count(InParam, |m.params|)];
    NestedAppend(g, c);
    NestedAppend(g + c, ParamEvents(InRetType, m.ret));
    NestedAppend(g + c + ParamEvents(InRetType, m.ret), ParamsEvents(m.params, m.sentinel));
    var inner := g + c + ParamEvents(InRetType, m.ret) + ParamsEvents(m.params, m.sentinel);
    NestedWrap(InMethod, m.elem, inner);
    assert MethodEvents(m) == [Begin(InMethod, m.elem)] + inner + [End(InMethod)];
  }

  lemma {:induction false} LocalsNested(ls: seq<Local>)
    ensures Nested(LocalsEvents(ls))
  {
    hide Nested, LocalEvents;
    NestedNone();
    if ls != [] {
      LocalNested(ls[0]);
      LocalsNested(ls[1..]);
      NestedAppend(LocalEvents(ls[0]), LocalsEvents(ls[1..]));
    }
  }

  lemma {:induction false} LocalModsNested(ms: seq<LocalMod>)
    ensures Nested(LocalModsEvents(ms))
  {
    hide Nested, ModsEvents;
    NestedNone();
    if ms != [] {
      LocalModsNested(ms[1..]);
      NestedPlain(Constraint(PINNED));
      if !ms[0].Pinned? {
        ModsNested([ms[0].mod]);
      }
      NestedAppend(if ms[0].Pinned? then [Constraint(PINNED)] else ModsEvents([ms[0].mod]), LocalModsEvents(ms[1..]));
    }
  }

  lemma {:induction false} LocalNested(l: Local)
    ensures Nested(LocalEvents(l))
  {
    hide Nested, LocalModsEvents, SlotEvents;
    match l
    case LocalTypedByref =>
      NestedPlain(TypedByrefSeen);
      NestedWrap(InLocal, 0, [TypedByrefSeen]);
    case Local(lmods, byref, t) =>
      LocalModsNested(lmods);
      SlotNested(Slot(byref, t));
      NestedAppend(LocalModsEvents(lmods), SlotEvents(Slot(byref, t)));
      NestedWrap(InLocal, 0, LocalModsEvents(lmods) + SlotEvents(Slot(byref, t)));
  }

  /** ... and in whole signatures. */
  lemma {:induction false} SigNested(s: Sig)
    ensures Nested(SigEvents(s))
  {
    hide Nested, MethodEvents, ModsEvents, TypeEvents, ParamsEvents, LocalsEvents;
    match s
    case MethodSig(m) => MethodNested(m);
    case FieldSig(e, mods, t) =>
      ModsNested(mods);
      TypeNested(t);
      NestedAppend(ModsEvents(mods), TypeEvents(t));
      NestedWrap(InField, e, ModsEvents(mods) + TypeEvents(t));
      assert SigEvents(s) == [Begin(InField, e)] + (ModsEvents(mods) + TypeEvents(t)) + [End(InField)];
    case PropertySig(e, mods, t, params) => PropertyNested(e, mods, t, params);
    case LocalsSig(e, locals) =>
      var c := [Count(InLocal, |locals|)];
      NestedPlain(Count(InLocal, |locals|));
      LocalsNested(locals);
      NestedAppend(c, LocalsEvents(locals));
      NestedWrap(InLocals, e, c + LocalsEvents(locals));
      assert SigEvents(s) == [Begin(InLocals, e)] + (c + LocalsEvents(locals)) + [End(InLocals)];
  }

  lemma {:induction false} NestedFour(a: seq<Event>, b: seq<Event>, c: seq<Event>, d: seq<Event>)
    requires Nested(a) && Nested(b) && Nested(c) && Nested(d)
    ensures Nested(a + b + c + d)
  {
    hide Nested;
    NestedAppend(a, b);
    NestedAppend(a + b, c);
    NestedAppend(a + b + c, d);
  }

  lemma {:induction false} Regroup(x: Event, y: Event, b: seq<Event>, c: seq<Event>, d: seq<Event>, z: Event)
    ensures [x, y] + b + c + d + [z] == [x] + ([y] + b + c + d) + [z]
  {
    assert [x, y] + b == [x] + ([y] + b);
    assert [x] + ([y] + b) + c == [x] + ([y] + b + c);
    assert [x] + ([y] + b + c) + d == [x] + ([y] + b + c + d);
  }

  lemma {:induction false} PropertyNested(e: byte, mods: seq<Mod>, t: Type, params: seq<Param>)
    ensures Nested(SigEvents(PropertySig(e, mods, t, params)))
  {
    hide Nested, ModsEvents, TypeEvents, ParamsEvents;
    var c, ms, ty, ps := [Count(InParam, |params|)], ModsEvents(mods), TypeEvents(t), ParamsEvents(params, None);
    NestedPlain(Count(InParam, |params|));
    ModsNested(mods);
    TypeNested(t);
    ParamsNested(params, None);
    NestedFour(c, ms, ty, ps);
    var inner := c + ms + ty + ps;
    NestedWrap(InProperty, e, inner);
    Regroup(Begin(InProperty, e), Count(InParam, |params|), ms, ty, ps, End(InProperty));
    assert SigEvents(PropertySig(e, mods, t, params)) == [Begin(InProperty, e)] + inner + [End(InProperty)];
  }
}
