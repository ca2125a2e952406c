/** Laws of the signature format with its bytes written out: what each calling
    convention and element byte means to the parser, and what the grammar prints. */
module SigLaws {
  import opened Wrappers
  import opened Bytes
  import opened SigGrammar
  import opened SigParsing

  // ----- numbers and tokens -----

  /** One, two or four bytes, the most significant first; everything else is refused. */
  lemma {:induction false} NumberByWidth(b: byte, c: byte, d: byte, e: byte, rest: seq<byte>)
    ensures b < 0x80 ==> ReadNumber([b] + rest) == Some((b as nat, rest))
    ensures b < 0x40 ==> ReadNumber([0x80 + b, c] + rest) == Some((256 * b + c, rest))
    ensures b < 0x20 ==> ReadNumber([0xC0 + b, c, d, e] + rest) == Some((16777216 * b + 65536 * c + 256 * d + e, rest))
    ensures b >= 0xE0 ==> ReadNumber([b] + rest) == None
    ensures b >= 0x80 && rest == [] ==> ReadNumber([b] + rest) == None
    ensures b >= 0xC0 && |rest| < 3 ==> ReadNumber([b] + rest) == None
    ensures ReadNumber([]) == None
  {
    assert ([b] + rest)[1..] == rest;
    if b < 0x40 {
      assert ([0x80 + b, c] + rest)[2..] == rest;
    }
    if b < 0x20 {
      FourByteNumber(0xC0 + b, c, d, e, rest);
    }
  }

  /** The two low bits of a coded token name its table, the others its row. Its number is read
      like others, except that the three high bits of a lead byte from 0xC0 on do not matter. */
  lemma {:induction false} TokenByBits(tag: nat, row: nat, b: byte, c: byte, d: byte, e: byte, rest: seq<byte>)
    requires tag < 4
    ensures 4 * row + tag == b < 0x80 ==> ReadToken([b] + rest) == Some((Token(tag, row), rest))
    ensures b < 0x40 && 4 * row + tag == 256 * b + c ==> ReadToken([0x80 + b, c] + rest) == Some((Token(tag, row), rest))
    ensures b >= 0xC0 && 4 * row + tag == 16777216 * (b % 0x20) + 65536 * c + 256 * d + e ==>
              ReadToken([b, c, d, e] + rest) == Some((Token(tag, row), rest))
    ensures ReadToken([]) == None && (b >= 0x80 && rest == [] ==> ReadToken([b] + rest) == None)
    ensures b >= 0xC0 && |rest| < 3 ==> ReadToken([b] + rest) == None
  {
    var n := 4 * row + tag;
    assert n % 4 == tag && n / 4 == row;
    assert ([b] + rest)[1..] == rest && ([b, c, d, e] + rest)[4..] == rest;
    if b < 0x40 {
      assert ([0x80 + b, c] + rest)[2..] == rest;
    }
  }

  // ----- calling conventions -----

  /** A calling convention byte: kind k, generic bit g and the bits above it, of which
      the lowest says that there is a this argument. */
  predicate Convention(e: byte, k: nat, g: nat, t: nat) {
    k < 16 && g < 2 && t < 8 && e == k + 16 * g + 32 * t
  }

  lemma {:induction false} GenericBit(e: byte, k: nat, g: nat, t: nat)
    requires Convention(e, k, g, t)
    ensures IsGeneric(e) <==> g == 1
    ensures e % 16 == k
  {
  }

  /** A count of generic parameters is read and reported exactly under the generic bit. */
  lemma {:induction false} GenericCountIff(e: byte, k: nat, g: nat, t: nat, s: seq<byte>)
    requires Convention(e, k, g, t) && ParseMethod(e, s).Some?
    ensures var es := ParseMethod(e, s).value.events;
      && |es| > 2 && es[0] == Begin(InMethod, e) && es[|es| - 1] == End(InMethod)
      && (es[1].GenericParamCount? <==> g == 1)
      && (g == 0 ==> ReadNumber(s).Some? && es[1] == Count(InParam, ReadNumber(s).value.0))
      && (g == 1 ==> ReadNumber(s).Some? && es[1] == GenericParamCount(ReadNumber(s).value.0)
                     && ReadNumber(ReadNumber(s).value.1).Some?
                     && es[2] == Count(InParam, ReadNumber(ReadNumber(s).value.1).value.0))
  {
    hide ReadNumber, ParseParam, ParseParams, IsGeneric;
    GenericBit(e, k, g, t);
  }

  /** What follows the first notification of a method. */
  function Behind(g: nat, s: seq<byte>): Result {
    if g == 0 then Finish(ParseSignature(s), End(InMethod))
    else
      var n := ReadNumber(s);
      if n.None? then None else Finish(Then([GenericParamCount(n.value.0)], ParseSignature(n.value.1)), End(InMethod))
  }

  lemma {:induction false} MethodIs(e: byte, k: nat, g: nat, t: nat, s: seq<byte>)
    requires Convention(e, k, g, t)
    ensures var r, b := ParseMethod(e, s), Behind(g, s);
      (r.Some? <==> b.Some?) && (r.Some? ==> r.value == Parsed([Begin(InMethod, e)] + b.value.events, b.value.rest))
  {
    hide ReadNumber, ParseSignature, IsGeneric;
    GenericBit(e, k, g, t);
    var r, b := ParseMethod(e, s), Behind(g, s);
    if r.Some? {
      assert r.value.events == [Begin(InMethod, e)] + b.value.events;
    }
  }

  /** No other bit matters: not the kind of a method, and not whether it has a this argument. */
  lemma {:induction false} OtherBitsIgnored(e: byte, k: nat, g: nat, t: nat, e': byte, k': nat, t': nat, s: seq<byte>)
    requires Convention(e, k, g, t) && Convention(e', k', g, t')
    ensures var r, r' := ParseMethod(e, s), ParseMethod(e', s);
      && (r.Some? <==> r'.Some?)
      && (r.Some? ==> r.value.rest == r'.value.rest && |r.value.events| == |r'.value.events| > 0
                      && r.value.events[1..] == r'.value.events[1..])
  {
    hide ParseMethod, Behind;
    MethodIs(e, k, g, t, s);
    MethodIs(e', k', g, t', s);
  }

  /** The this bit alone, on a method that is generic or not. */
  lemma {:induction false} ThisBitIgnored(k: byte, g: byte, s: seq<byte>)
    requires k < 16 && g < 2
    ensures var r, r' := ParseMethod(k + 16 * g + 32, s), ParseMethod(k + 16 * g, s);
      && (r.Some? <==> r'.Some?)
      && (r.Some? ==> r.value.rest == r'.value.rest && |r.value.events| == |r'.value.events| > 0
                      && r.value.events[1..] == r'.value.events[1..])
  {
    hide ParseMethod;
    OtherBitsIgnored(k + 16 * g + 32, k as nat, g as nat, 1, k + 16 * g, k as nat, 0, s);
  }

  /** The signature of an instance method without parameters that returns nothing. */
  lemma {:induction false} InstanceVoid(rest: seq<byte>)
    ensures Parse([0x20, 0x00, 0x01] + rest)
            == Some(Parsed([Begin(InMethod, 0x20), Count(InParam, 0), Begin(InRetType, 0), VoidSeen, End(InRetType), End(InMethod)], rest))
  {
    var s: seq<byte> := [0x20, 0x00, 0x01] + rest;
    var a, b: seq<byte> := [0x00, 0x01] + rest, [0x01] + rest;
    assert s[1..] == a && a[1..] == b && b[1..] == rest;
    assert ReadNumber(a) == Some((0, b));
    assert ParseMods(b) == Some(Parsed([], b));
    assert ParseSlot(b, true) == Some(Parsed([VoidSeen], rest));
    var p := ParseParam(b, true);
    assert p.Some? && p.value.rest == rest && p.value.events == [Begin(InRetType, 0), VoidSeen, End(InRetType)];
    assert ParseParams(rest, 0, false) == Some(Parsed([], rest));
    var g := ParseSignature(a);
    assert g.Some? && g.value.rest == rest && g.value.events == [Count(InParam, 0)] + p.value.events;
    var r := ParseMethod(0x20, a);
    assert r.Some? && r.value.rest == rest && r.value.events == [Begin(InMethod, 0x20)] + g.value.events + [End(InMethod)];
    assert r.value.events == [Begin(InMethod, 0x20), Count(InParam, 0), Begin(InRetType, 0), VoidSeen, End(InRetType), End(InMethod)];
  }

  /** The low nibble of the first byte decides what a blob is; other blobs are refused. */
  lemma {:induction false} KindByNibble(e: byte, s: seq<byte>)
    ensures Parse([]) == None
    ensures e % 16 <= 5 ==> Parse([e] + s) == ParseMethod(e, s)
    ensures e % 16 > 8 ==> Parse([e] + s) == None
    ensures var r := Parse([e] + s); r.Some? ==>
      && |r.value.events| > 0
      && r.value.events[0] == Begin(if e % 16 <= 5 then InMethod else if e % 16 == 6 then InField
                                    else if e % 16 == 7 then InLocals else InProperty, e)
  {
    hide ParseSignature, ParseMods, ParseType, ReadNumber, ParseLocalList, ParsePropertyParams;
    assert ([e] + s)[1..] == s;
  }

  // ----- element types -----

  /** The element bytes that stand for a type by themselves. */
  predicate Primitive(e: byte) {
    || e == 0x02 || e == 0x03 || e == 0x04 || e == 0x05 || e == 0x06 || e == 0x07 || e == 0x08 || e == 0x09
    || e == 0x0A || e == 0x0B || e == 0x0C || e == 0x0D || e == 0x0E || e == 0x18 || e == 0x19 || e == 0x1C
  }

  /** The element bytes with something behind them. */
  predicate Composite(e: byte) {
    || e == 0x0F || e == 0x11 || e == 0x12 || e == 0x13 || e == 0x14 || e == 0x15 || e == 0x1B || e == 0x1D || e == 0x1E
  }

  function AsType(inner: seq<Event>): seq<Event> {
    [Begin(InType, 0)] + inner + [End(InType)]
  }

  lemma {:induction false} TypeOfByte(e: byte, s: seq<byte>)
    ensures ParseType([]) == None
    ensures var r, i := ParseType([e] + s), ParseTypeInner(e, s);
      (r.Some? <==> i.Some?) && (r.Some? ==> r.value == Parsed(AsType(i.value.events), i.value.rest))
  {
    hide ParseTypeInner;
    assert ([e] + s)[1..] == s;
  }

  /** Primitive types give one notification, unknown element bytes none. */
  lemma {:induction false} PlainTypes(e: byte, s: seq<byte>)
    ensures Primitive(e) ==> ParseType([e] + s) == Some(Parsed(AsType([TypeSimple(e)]), s))
    ensures !Primitive(e) && !Composite(e) ==> ParseType([e] + s) == Some(Parsed(AsType([]), s))
  {
    hide ParseType, ParseMods, ReadToken, ReadNumber, ParseMethod, ParseArrayShape, ParseTypes;
    TypeOfByte(e, s);
  }

  /** A class or value type is named by a token, a type variable by a number. */
  lemma {:induction false} NamedTypes(s: seq<byte>)
    ensures var r := ReadToken(s);
      && (r.None? ==> ParseType([0x12] + s).None? && ParseType([0x11] + s).None?)
      && (r.Some? ==>
            && ParseType([0x12] + s) == Some(Parsed(AsType([TypeClass, TypeDefOrRef(r.value.0)]), r.value.1))
            && ParseType([0x11] + s) == Some(Parsed(AsType([TypeValueType, TypeDefOrRef(r.value.0)]), r.value.1)))
    ensures var r := ReadNumber(s);
      && (r.None? ==> ParseType([0x13] + s).None? && ParseType([0x1E] + s).None?)
      && (r.Some? ==>
            && ParseType([0x13] + s) == Some(Parsed(AsType([TypeGenericTypeVariable(r.value.0)]), r.value.1))
            && ParseType([0x1E] + s) == Some(Parsed(AsType([TypeGenericMemberVariable(r.value.0)]), r.value.1)))
  {
    hide ParseType, ReadToken, ReadNumber, ParseMods, ParseMethod, ParseArrayShape, ParseTypes;
    TypeOfByte(0x12, s);
    TypeOfByte(0x11, s);
    TypeOfByte(0x13, s);
    TypeOfByte(0x1E, s);
  }

  /** A pointer leads, behind its modifiers, to void or to a type. */
  lemma {:induction false} PointerTypes(s: seq<byte>)
    ensures var m, r := ParseMods(s), ParseType([0x0F] + s);
      && (m.None? || m.value.rest == [] ==> r.None?)
      && (m.Some? && m.value.rest != [] ==>
            var es, rest := m.value.events, m.value.rest;
            if rest[0] == 0x01 then r == Some(Parsed(AsType([TypePointer] + es + [VoidSeen]), rest[1..]))
            else var u := ParseType(rest);
              (r.Some? <==> u.Some?) && (r.Some? ==> r.value == Parsed(AsType([TypePointer] + es + u.value.events), u.value.rest)))
  {
    hide ParseMods, ParseType, ReadToken, ReadNumber, ParseMethod, ParseArrayShape, ParseTypes;
    TypeOfByte(0x0F, s);
  }

  /** An array has its element type in front, 0x1D without and 0x14 with a shape behind it. */
  lemma {:induction false} ArrayTypes(s: seq<byte>)
    ensures var m, r := ParseMods(s), ParseType([0x1D] + s);
      && (m.None? ==> r.None?)
      && (m.Some? ==>
            var u := ParseType(m.value.rest);
            (r.Some? <==> u.Some?) && (r.Some? ==> r.value == Parsed(AsType([TypeSzArray] + m.value.events + u.value.events), u.value.rest)))
    ensures var u, r := ParseType(s), ParseType([0x14] + s);
      && (u.None? ==> r.None?)
      && (u.Some? ==>
            var h := ParseArrayShape(u.value.rest);
            (r.Some? <==> h.Some?) && (r.Some? ==> r.value == Parsed(AsType([TypeArray] + u.value.events + h.value.events), h.value.rest)))
  {
    hide ParseMods, ParseType, ReadToken, ReadNumber, ParseMethod, ParseArrayShape, ParseTypes;
    TypeOfByte(0x1D, s);
    TypeOfByte(0x14, s);
  }

  /** An instantiation has the kind, the generic type, and the number of arguments in front of these;
      a function pointer has a method signature. */
  lemma {:induction false} BuiltTypes(b: byte, s: seq<byte>)
    ensures ParseType([0x15]).None? && ParseType([0x1B]).None?
    ensures b != 0x12 && b != 0x11 ==> ParseType([0x15, b] + s).None?
    ensures b == 0x12 || b == 0x11 ==>
      var t, r := ReadToken(s), ParseType([0x15, b] + s);
      && (t.None? || ReadNumber(t.value.1).None? ==> r.None?)
      && (t.Some? && ReadNumber(t.value.1).Some? ==>
            var n := ReadNumber(t.value.1).value;
            var args := ParseTypes(n.1, n.0);
            (r.Some? <==> args.Some?)
            && (r.Some? ==> r.value == Parsed(AsType([TypeGenericInst(b, t.value.0, n.0)] + args.value.events), args.value.rest)))
    ensures var m, r := ParseMethod(b, s), ParseType([0x1B, b] + s);
      (r.Some? <==> m.Some?) && (r.Some? ==> r.value == Parsed(AsType([TypeFunctionPointer] + m.value.events), m.value.rest))
  {
    hide ParseMods, ParseType, ReadToken, ReadNumber, ParseMethod, ParseArrayShape, ParseTypes;
    TypeOfByte(0x15, []);
    TypeOfByte(0x1B, []);
    assert [0x15] + [] == [0x15] && [0x1B] + [] == [0x1B];
    TypeOfByte(0x15, [b] + s);
    TypeOfByte(0x1B, [b] + s);
    assert [0x15, b] + s == [0x15] + ([b] + s) && [0x1B, b] + s == [0x1B] + ([b] + s) && ([b] + s)[1..] == s;
  }

  // ----- parameters and modifiers -----

  /** 0x16 is a typed reference, 0x10 a reference to a type, and 0x01 void, which only a return type may be. */
  lemma {:induction false} Slots(e: byte, s: seq<byte>, ret: bool)
    ensures ParseSlot([], ret).None?
    ensures ParseSlot([0x16] + s, ret) == Some(Parsed([TypedByrefSeen], s))
    ensures ParseSlot([0x01] + s, true) == Some(Parsed([VoidSeen], s))
    ensures ParseSlot([0x01] + s, false) == ParseType([0x01] + s)
    ensures var u, r := ParseType(s), ParseSlot([0x10] + s, ret);
      (r.Some? <==> u.Some?) && (r.Some? ==> r.value == Parsed([ByrefSeen] + u.value.events, u.value.rest))
    ensures e != 0x16 && e != 0x01 && e != 0x10 ==> ParseSlot([e] + s, ret) == ParseType([e] + s)
  {
    hide ParseType;
    assert ([0x16] + s)[1..] == s && ([0x01] + s)[1..] == s && ([0x10] + s)[1..] == s;
  }

  /** 0x1F and 0x20 start a modifier, 0x45 in front of a local says that it is pinned. */
  lemma {:induction false} Modifiers(e: byte, s: seq<byte>)
    ensures e != 0x1F && e != 0x20 ==> ParseMods([e] + s) == Some(Parsed([], [e] + s))
    ensures e == 0x1F || e == 0x20 ==>
      var t, r, l := ReadToken(s), ParseMods([e] + s), ParseModsOrConstraint([e] + s);
      && (t.None? ==> r.None? && l.None?)
      && (t.Some? ==> r == Then([CustomModSeen(e, t.value.0)], ParseMods(t.value.1))
                      && l == Then([CustomModSeen(e, t.value.0)], ParseModsOrConstraint(t.value.1)))
    ensures ParseModsOrConstraint([0x45] + s) == Then([Constraint(0x45)], ParseModsOrConstraint(s))
    ensures e != 0x1F && e != 0x20 && e != 0x45 ==> ParseModsOrConstraint([e] + s) == Some(Parsed([], [e] + s))
  {
    hide ReadToken, Then;
    assert ([e] + s)[1..] == s && ([0x45] + s)[1..] == s;
  }

  /** 0x41 separates the variable arguments, once. */
  lemma {:induction false} Sentinels(e: byte, s: seq<byte>, n: nat, seen: bool)
    requires n > 0
    ensures ParseParams([0x41] + s, n, true).None?
    ensures var p := ParseParam(s, false);
      ParseParams([0x41] + s, n, false)
        == if p.None? then None else Then([Sentinel] + p.value.events, ParseParams(p.value.rest, n - 1, true))
    ensures e != 0x41 ==>
      var p := ParseParam([e] + s, false);
      ParseParams([e] + s, n, seen) == if p.None? then None else Then(p.value.events, ParseParams(p.value.rest, n - 1, seen))
  {
    hide ParseParam, Then;
    assert ([0x41] + s)[1..] == s;
  }

  /** A local is a typed reference, or modifiers, perhaps 0x10, and a type. */
  lemma {:induction false} Locals(e: byte, s: seq<byte>)
    ensures ParseLocal([]).None?
    ensures ParseLocal([0x16] + s) == Some(Parsed([Begin(InLocal, 0), TypedByrefSeen, End(InLocal)], s))
    ensures e != 0x16 ==>
      var m, r := ParseModsOrConstraint([e] + s), ParseLocal([e] + s);
      && (m.None? || m.value.rest == [] ==> r.None?)
      && (m.Some? && m.value.rest != [] ==>
            var es, rest := m.value.events, m.value.rest;
            var u := if rest[0] == 0x10 then ParseType(rest[1..]) else ParseType(rest);
            (r.Some? <==> u.Some?)
            && (r.Some? ==> r.value == Parsed([Begin(InLocal, 0)] + es + (if rest[0] == 0x10 then [ByrefSeen] else [])
                                              + u.value.events + [End(InLocal)], u.value.rest)))
  {
    hide ParseType, ParseModsOrConstraint;
    assert ([0x16] + s)[1..] == s;
  }

  lemma {:induction false} SizesAre(ns: seq<nat>)
    ensures SizesEvents(ns) == seq(|ns|, i requires 0 <= i < |ns| => Size(ns[i]))
    ensures LoBoundsEvents(ns) == seq(|ns|, i requires 0 <= i < |ns| => LoBound(ns[i]))
    decreases |ns|
  {
    if ns != [] {
      SizesAre(ns[1..]);
    }
  }

  /** An array shape is its rank, the number of sizes, these, the number of lower bounds, and those. */
  lemma {:induction false} Shapes(rank: nat, sizes: seq<nat>, los: seq<nat>, rest: seq<byte>)
    requires ShapeOk(Shape(rank, sizes, los))
    ensures ParseArrayShape(Number(rank) + Number(|sizes|) + NumbersBytes(sizes) + Number(|los|) + NumbersBytes(los) + rest)
            == Some(Parsed([Begin(InArrayShape, 0), Rank(rank), NumSizes(|sizes|)] + seq(|sizes|, i requires 0 <= i < |sizes| => Size(sizes[i]))
                           + [NumLoBounds(|los|)] + seq(|los|, i requires 0 <= i < |los| => LoBound(los[i])) + [End(InArrayShape)], rest))
  {
    hide Number, NumbersBytes, SizesEvents, LoBoundsEvents, ParseArrayShape;
    ShapeReadBack(Shape(rank, sizes, los), rest);
    SizesAre(sizes);
    SizesAre(los);
    assert Number(rank) + Number(|sizes|) + NumbersBytes(sizes) + Number(|los|) + NumbersBytes(los) + rest
           == ShapeBytes(Shape(rank, sizes, los)) + rest;
  }

  /** A method is its parameter count, its return type and its parameters. */
  lemma {:induction false} Signatures(s: seq<byte>)
    requires ParseSignature(s).Some?
    ensures ReadNumber(s).Some?
    ensures var n, rest := ReadNumber(s).value.0, ReadNumber(s).value.1;
      var ret := ParseParam(rest, true);
      ret.Some? &&
      var ps := ParseParams(ret.value.rest, n, false);
      ps.Some? && ParseSignature(s).value == Parsed([Count(InParam, n)] + ret.value.events + ps.value.events, ps.value.rest)
  {
    hide ReadNumber, ParseParam, ParseParams;
  }

  /** A property is its parameter count, modifiers, its type and its parameters; a field only modifiers and its type. */
  lemma {:induction false} Properties(e: byte, s: seq<byte>)
    requires Parse([e] + s).Some? && (e % 16 == 6 || e % 16 == 8)
    ensures e % 16 == 8 ==> ReadNumber(s).Some?
    ensures var m := ParseMods(if e % 16 == 6 then s else ReadNumber(s).value.1);
      m.Some? &&
      var u := ParseType(m.value.rest);
      u.Some? &&
      var r := Parse([e] + s).value;
      if e % 16 == 6 then r == Parsed([Begin(InField, e)] + (m.value.events + u.value.events) + [End(InField)], u.value.rest)
      else var ps := ParsePropertyParams(u.value.rest, ReadNumber(s).value.0);
        ps.Some? && r == Parsed([Begin(InProperty, e), Count(InParam, ReadNumber(s).value.0)] + (m.value.events + u.value.events)
                                + ps.value.events + [End(InProperty)], ps.value.rest)
  {
    hide ReadNumber, ParseMods, ParseType, ParsePropertyParams, ParseMethod, LocalsPart;
    assert ([e] + s)[1..] == s;
    if e % 16 == 6 {
      var m := ParseMods(s);
      var u := ParseType(m.value.rest);
      assert [Begin(InField, e)] + m.value.events + u.value.events == [Begin(InField, e)] + (m.value.events + u.value.events);
    } else {
      var n := ReadNumber(s).value.0;
      var m := ParseMods(ReadNumber(s).value.1);
      var u := ParseType(m.value.rest);
      assert [Begin(InProperty, e), Count(InParam, n)] + m.value.events + u.value.events
             == [Begin(InProperty, e), Count(InParam, n)] + (m.value.events + u.value.events);
    }
  }

  /** A blob of locals is their number and the locals. */
  lemma {:induction false} LocalLists(e: byte, s: seq<byte>)
    requires e % 16 == 7
    ensures var n, r := ReadNumber(s), Parse([e] + s);
      && (n.None? ==> r.None?)
      && (n.Some? ==>
            var ls := ParseLocalList(n.value.1, n.value.0);
            (r.Some? <==> ls.Some?)
            && (r.Some? ==> r.value == Parsed([Begin(InLocals, e), Count(InLocal, n.value.0)] + ls.value.events + [End(InLocals)], ls.value.rest)))
  {
    hide ReadNumber, ParseLocalList, ParseMethod, FieldPart, PropertyPart;
    assert ([e] + s)[1..] == s;
  }

  // ----- what the grammar prints -----

  lemma {:induction false} PrintedTypes(t: Type)
    requires TypeOk(t)
    ensures t.Simple? ==> Primitive(t.elem) && TypeBytes(t) == [t.elem]
    ensures t.VoidPointer? ==> TypeBytes(t) == [0x0F] + ModsBytes(t.mods) + [0x01]
    ensures t.Pointer? ==> TypeBytes(t) == [0x0F] + ModsBytes(t.mods) + TypeBytes(t.to)
    ensures t.Class? ==> TypeBytes(t) == [0x12] + TokenBytes(t.token)
    ensures t.ValueType? ==> TypeBytes(t) == [0x11] + TokenBytes(t.token)
    ensures t.FunctionPointer? ==> TypeBytes(t) == [0x1B, t.m.elem] + MethodBytes(t.m)
    ensures t.Array? ==> TypeBytes(t) == [0x14] + TypeBytes(t.of) + ShapeBytes(t.shape)
    ensures t.SzArray? ==> TypeBytes(t) == [0x1D] + ModsBytes(t.mods) + TypeBytes(t.of)
    ensures t.GenericInst? ==> (t.kind == 0x12 || t.kind == 0x11)
                               && TypeBytes(t) == [0x15, t.kind] + TokenBytes(t.token) + Number(|t.args|) + TypesBytes(t.args)
    ensures t.TypeVariable? ==> TypeBytes(t) == [0x13] + Number(t.n)
    ensures t.MemberVariable? ==> TypeBytes(t) == [0x1E] + Number(t.n)
  {
    hide ModsBytes, TokenBytes, MethodBytes, ShapeBytes, TypesBytes, Number;
  }

  lemma {:induction false} PrintedModifiers(m: Mod, ms: seq<Mod>)
    requires TokenOk(m.token) && ModsOk(ms)
    ensures ModsBytes([m] + ms) == [if m.required then 0x1F else 0x20] + Number(4 * m.token.row + m.token.tag) + ModsBytes(ms)
  {
    hide Number;
    assert ([m] + ms)[1..] == ms;
  }

  lemma {:induction false} PrintedSlots(s: Slot)
    requires SlotOk(s)
    ensures SlotBytes(s) == match s case VoidSlot => [0x01] case TypedByref => [0x16]
                                    case Slot(byref, t) => if byref then [0x10] + TypeBytes(t) else TypeBytes(t)
  {
    hide TypeBytes;
  }

  /** The generic count is printed exactly under the generic bit, in front of the parameter count. */
  lemma {:induction false} PrintedMethods(m: Method, k: nat, g: nat, t: nat)
    requires MethodOk(m) && Convention(m.elem, k, g, t)
    ensures g == 0 ==> m.genericParams == 0
    ensures MethodBytes(m) == (if g == 1 then Number(m.genericParams) else []) + Number(|m.params|)
                              + ModsBytes(m.ret.mods) + SlotBytes(m.ret.slot) + ParamsBytes(m.params, m.sentinel)
  {
    hide Number, ParamsBytes, ModsBytes, SlotBytes, IsGeneric;
    GenericBit(m.elem, k, g, t);
  }
}
