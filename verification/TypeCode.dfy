/** Type trees of allocated objects: flattened into vectors, then serialized. */
module TypeCode {
  import opened Wrappers
  import opened Bytes

  type wchar = x: int | 0 <= x < 0x1_0000

  const BOOLEAN := 0x02
  const R8 := 0x0d
  const I := 0x18
  const U := 0x19

  predicate IsPrimitive(elem: byte) {
    BOOLEAN <= elem <= R8 || elem == I || elem == U
  }

  /** A resolved type: an array with its element type where that is not
      primitive, or a class with its generic arguments. */
  datatype Type =
    | Array(elem: byte, rank: int, element: Option<Type>)
    | Class(token: int, assembly: seq<wchar>, moduleName: seq<wchar>, args: seq<Type>)

  predicate WellFormed(t: Type) {
    match t
    case Array(elem, rank, element) =>
      Fits(rank, 4) && (if IsPrimitive(elem) then element.None? else element.Some? && WellFormed(element.value))
    case Class(token, assembly, moduleName, args) =>
      Fits(token, 4) && Fits(2 * |assembly|, 4) && Fits(2 * |moduleName|, 4) && Fits(|args|, 4)
      && forall i :: 0 <= i < |args| ==> WellFormed(args[i])
  }

  // ----- preorder -----

  /** What one type contributes by itself. */
  datatype Node =
    | ArrayNode(elem: byte, rank: int)
    | ClassNode(token: int, assembly: seq<wchar>, moduleName: seq<wchar>, argsCount: nat)

  function Root(t: Type): Node {
    match t
    case Array(elem, rank, _) => ArrayNode(elem, rank)
    case Class(token, assembly, moduleName, args) => ClassNode(token, assembly, moduleName, |args|)
  }

  function Parts(t: Type): seq<Type> {
    match t
    case Array(_, _, element) => if element.Some? then [element.value] else []
    case Class(_, _, _, args) => args
  }

  function Nodes(t: Type): seq<Node>
    decreases t, 1
  {
    match t
    case Array(_, _, element) => [Root(t)] + if element.Some? then Nodes(element.value) else []
    case Class(_, _, _, args) => [Root(t)] + NodesOf(args)
  }

  function NodesOf(ts: seq<Type>): seq<Node>
    decreases ts, 0
  {
    if ts == [] then [] else Nodes(ts[0]) + NodesOf(ts[1..])
  }

  // ----- the byte form -----

  function NameBytes(ws: seq<wchar>): (bs: seq<byte>)
    ensures |bs| == 2 * |ws|
  {
    if ws == [] then [] else NameBytes(ws[..|ws| - 1]) + [ws[|ws| - 1] % 256, ws[|ws| - 1] / 256]
  }

  function NodeBytes(n: Node): seq<byte> {
    match n
    case ArrayNode(elem, rank) => [1, 1, elem] + LittleEndian(rank, 4)
    case ClassNode(token, assembly, moduleName, argsCount) =>
      [1, 0] + LittleEndian(token, 4)
      + LittleEndian(2 * |assembly|, 4) + NameBytes(assembly)
      + LittleEndian(2 * |moduleName|, 4) + NameBytes(moduleName)
      + LittleEndian(argsCount, 4)
  }

  function BytesOf(ns: seq<Node>): seq<byte> {
    if ns == [] then [] else BytesOf(ns[..|ns| - 1]) + NodeBytes(ns[|ns| - 1])
  }

  function Encode(t: Type): seq<byte> {
    BytesOf(Nodes(t))
  }

  lemma {:induction false} BytesAppend(a: seq<Node>, b: seq<Node>)
    ensures BytesOf(a + b) == BytesOf(a) + BytesOf(b)
    decreases |b|
  {
    hide NodeBytes;
    if b == [] {
      assert a + b == a;
    } else {
      var n := |b| - 1;
      BytesAppend(a, b[..n]);
      assert (a + b)[..|a + b| - 1] == a + b[..n] && (a + b)[|a + b| - 1] == b[n];
      assert BytesOf(a + b) == BytesOf(a + b[..n]) + NodeBytes(b[n]);
    }
  }

  // ----- reading it back -----

  function Word(bs: seq<byte>): int
    requires |bs| >= 4
  {
    Signed(bs[..4])
  }

  function NameOf(bs: seq<byte>): (ws: seq<wchar>)
    requires |bs| % 2 == 0
  {
    if bs == [] then [] else NameOf(bs[..|bs| - 2]) + [bs[|bs| - 2] as int + 256 * bs[|bs| - 1] as int]
  }

  function DecodeName(bs: seq<byte>): (r: Option<(seq<wchar>, seq<byte>)>)
    ensures r.Some? ==> |r.value.1| < |bs|
  {
    if |bs| < 4 || Word(bs) < 0 || Word(bs) % 2 != 0 || |bs| < 4 + Word(bs) then None
    else Some((NameOf(bs[4..4 + Word(bs)]), bs[4 + Word(bs)..]))
  }

  function DecodeNode(bs: seq<byte>): (r: Option<(Node, seq<byte>)>)
    ensures r.Some? ==> |r.value.1| < |bs|
  {
    if |bs| < 6 || bs[0] != 1 then None
    else if bs[1] == 1 then
      if |bs| < 7 then None else Some((ArrayNode(bs[2], Word(bs[3..])), bs[7..]))
    else if bs[1] == 0 then
      var assembly := DecodeName(bs[6..]);
      if assembly.None? then None else
      var mod := DecodeName(assembly.value.1);
      if mod.None? || |mod.value.1| < 4 || Word(mod.value.1) < 0 then None
      else Some((ClassNode(Word(bs[2..]), assembly.value.0, mod.value.0, Word(mod.value.1)), mod.value.1[4..]))
    else None
  }

  function Decode(bs: seq<byte>): (r: Option<(Type, seq<byte>)>)
    ensures r.Some? ==> |r.value.1| < |bs|
    decreases |bs|, 0
  {
    var node := DecodeNode(bs);
    if node.None? then None else
    var (n, rest) := node.value;
    match n
    case ArrayNode(elem, rank) =>
      if IsPrimitive(elem) then Some((Array(elem, rank, None), rest))
      else
        var e := Decode(rest);
        if e.None? then None else Some((Array(elem, rank, Some(e.value.0)), e.value.1))
    case ClassNode(token, assembly, moduleName, argsCount) =>
      var args := DecodeMany(rest, argsCount);
      if args.None? then None else Some((Class(token, assembly, moduleName, args.value.0), args.value.1))
  }

  function DecodeMany(bs: seq<byte>, n: nat): (r: Option<(seq<Type>, seq<byte>)>)
    ensures r.Some? ==> |r.value.0| == n && |r.value.1| <= |bs|
    decreases |bs|, n + 1
  {
    if n == 0 then Some(([], bs))
    else
      var first := Decode(bs);
      if first.None? then None else
      var rest := DecodeMany(first.value.1, n - 1);
      if rest.None? then None else Some(([first.value.0] + rest.value.0, rest.value.1))
  }

  lemma {:induction false} ReadWord(v: int, rest: seq<byte>)
    requires Fits(v, 4)
    ensures var bs := LittleEndian(v, 4) + rest; Word(bs) == v && bs[4..] == rest
  {
    SignedOfLittleEndian(v, 4);
    assert (LittleEndian(v, 4) + rest)[..4] == LittleEndian(v, 4);
  }

  lemma {:induction false} ReadName(ws: seq<wchar>)
    ensures NameOf(NameBytes(ws)) == ws
  {
    if ws != [] {
      var n := |ws| - 1;
      ReadName(ws[..n]);
      var bs := NameBytes(ws);
      assert bs[..|bs| - 2] == NameBytes(ws[..n]);
    }
  }

  lemma {:induction false} ReadSizedName(ws: seq<wchar>, rest: seq<byte>)
    requires Fits(2 * |ws|, 4)
    ensures DecodeName(LittleEndian(2 * |ws|, 4) + NameBytes(ws) + rest) == Some((ws, rest))
  {
    hide NameBytes, NameOf, LittleEndian, Fits;
    var bs := LittleEndian(2 * |ws|, 4) + NameBytes(ws) + rest;
    assert bs == LittleEndian(2 * |ws|, 4) + (NameBytes(ws) + rest);
    ReadWord(2 * |ws|, NameBytes(ws) + rest);
    ReadName(ws);
    assert bs[4..4 + 2 * |ws|] == NameBytes(ws) && bs[4 + 2 * |ws|..] == rest;
  }

  predicate NodeFits(n: Node) {
    match n
    case ArrayNode(_, rank) => Fits(rank, 4)
    case ClassNode(token, assembly, moduleName, argsCount) =>
      Fits(token, 4) && Fits(2 * |assembly|, 4) && Fits(2 * |moduleName|, 4) && Fits(argsCount, 4)
  }

  lemma {:induction false} ReadArrayNode(elem: byte, rank: int, rest: seq<byte>)
    requires Fits(rank, 4)
    ensures DecodeNode([1, 1, elem] + LittleEndian(rank, 4) + rest) == Some((ArrayNode(elem, rank), rest))
  {
    hide LittleEndian, Fits, DecodeName, Word;
    var bs := [1, 1, elem] + LittleEndian(rank, 4) + rest;
    assert bs[3..] == LittleEndian(rank, 4) + rest;
    ReadWord(rank, rest);
    assert bs[7..] == bs[3..][4..];
  }

  lemma {:induction false} ReadClassNode(n: Node, bs: seq<byte>, rest: seq<byte>, first: seq<byte>, second: seq<byte>)
    requires n.ClassNode? && NodeFits(n)
    requires second == LittleEndian(2 * |n.moduleName|, 4) + NameBytes(n.moduleName) + (LittleEndian(n.argsCount, 4) + rest)
    requires first == LittleEndian(2 * |n.assembly|, 4) + NameBytes(n.assembly) + second
    requires bs == [1, 0] + (LittleEndian(n.token, 4) + first)
    ensures DecodeNode(bs) == Some((n, rest))
  {
    hide LittleEndian, Fits, DecodeName, Word, NameBytes;
    assert bs[2..] == LittleEndian(n.token, 4) + first;
    ReadWord(n.token, first);
    assert bs[6..] == bs[2..][4..];
    ReadSizedName(n.assembly, second);
    ReadSizedName(n.moduleName, LittleEndian(n.argsCount, 4) + rest);
    ReadWord(n.argsCount, rest);
  }

  lemma {:induction false} ReadNode(n: Node, rest: seq<byte>)
    requires NodeFits(n)
    ensures DecodeNode(NodeBytes(n) + rest) == Some((n, rest))
  {
    hide NameBytes, LittleEndian, Fits, DecodeNode;
    match n
    case ArrayNode(elem, rank) =>
      ReadArrayNode(elem, rank, rest);
    case ClassNode(token, assembly, moduleName, argsCount) =>
      var second := LittleEndian(2 * |moduleName|, 4) + NameBytes(moduleName) + (LittleEndian(argsCount, 4) + rest);
      var first := LittleEndian(2 * |assembly|, 4) + NameBytes(assembly) + second;
      var bs := [1, 0] + (LittleEndian(token, 4) + first);
      assert NodeBytes(n) + rest == bs;
      ReadClassNode(n, bs, rest, first, second);
  }

  lemma {:induction false} RootFits(t: Type)
    requires WellFormed(t)
    ensures NodeFits(Root(t))
  {
  }

  /** Decoding undoes encoding, whatever follows: the code is prefix-free. */
  lemma {:induction false} DecodeEncode(t: Type, rest: seq<byte>)
    requires WellFormed(t)
    ensures Decode(Encode(t) + rest) == Some((t, rest))
    decreases t, 1
  {
    hide NodeBytes, DecodeNode, BytesOf, Fits, IsPrimitive;
    RootFits(t);
    match t
    case Array(elem, rank, element) =>
      if element.Some? {
        var more := BytesOf(Nodes(element.value)) + rest;
        BytesAppend([Root(t)], Nodes(element.value));
        OneNode(Root(t));
        assert Encode(t) + rest == NodeBytes(Root(t)) + more;
        ReadNode(Root(t), more);
        DecodeEncode(element.value, rest);
      } else {
        assert Nodes(t) == [Root(t)];
        OneNode(Root(t));
        ReadNode(Root(t), rest);
      }
    case Class(token, assembly, moduleName, args) =>
      var more := BytesOf(NodesOf(args)) + rest;
      BytesAppend([Root(t)], NodesOf(args));
      OneNode(Root(t));
      assert Encode(t) + rest == NodeBytes(Root(t)) + more;
      ReadNode(Root(t), more);
      DecodeEncodeMany(args, rest);
  }

  lemma {:induction false} OneNode(n: Node)
    ensures BytesOf([n]) == NodeBytes(n)
  {
    assert [n][..0] == [];
    assert BytesOf([n][..0]) == [];
  }

  lemma {:induction false} DecodeEncodeMany(ts: seq<Type>, rest: seq<byte>)
    requires forall i :: 0 <= i < |ts| ==> WellFormed(ts[i])
    ensures DecodeMany(BytesOf(NodesOf(ts)) + rest, |ts|) == Some((ts, rest))
    decreases ts, 0
  {
    hide WellFormed, Decode, Nodes, BytesOf;
    if ts == [] {
      assert BytesOf([]) == [] by { NoNodes(); }
      assert BytesOf(NodesOf(ts)) + rest == rest;
    } else {
      var more := BytesOf(NodesOf(ts[1..])) + rest;
      BytesAppend(Nodes(ts[0]), NodesOf(ts[1..]));
      assert BytesOf(NodesOf(ts)) + rest == Encode(ts[0]) + more;
      DecodeEncode(ts[0], more);
      DecodeEncodeMany(ts[1..], rest);
      assert [ts[0]] + ts[1..] == ts;
    }
  }

  lemma {:induction false} NoNodes()
    ensures BytesOf([]) == [] && AddAll(EMPTY, []) == EMPTY
  {
  }

  /** The codes of several types, one behind the other. */
  function EncodeAll(ts: seq<Type>): seq<byte> {
    if ts == [] then [] else Encode(ts[0]) + EncodeAll(ts[1..])
  }

  lemma {:induction false} EncodeAllIs(ts: seq<Type>)
    ensures EncodeAll(ts) == BytesOf(NodesOf(ts))
  {
    hide Nodes, BytesOf;
    if ts == [] {
      NoNodes();
    } else {
      BytesAppend(Nodes(ts[0]), NodesOf(ts[1..]));
      EncodeAllIs(ts[1..]);
    }
  }

  /** The format byte by byte: 1 and 1 for an array, its element byte and rank, and the
      element type; 1 and 0 for a class, its token, the names of its assembly and module,
      each behind its size in bytes, and the number of its arguments in front of these. */
  lemma {:induction false} CodeIs(t: Type)
    ensures t.Array? ==>
      Encode(t) == [1, 1, t.elem] + LittleEndian(t.rank, 4) + if t.element.Some? then Encode(t.element.value) else []
    ensures t.Class? ==>
      Encode(t) == [1, 0] + LittleEndian(t.token, 4)
                   + LittleEndian(2 * |t.assembly|, 4) + NameBytes(t.assembly)
                   + LittleEndian(2 * |t.moduleName|, 4) + NameBytes(t.moduleName)
                   + LittleEndian(|t.args|, 4) + EncodeAll(t.args)
  {
    hide BytesOf, LittleEndian, NameBytes, EncodeAll;
    OneNode(Root(t));
    match t
    case Array(elem, rank, element) =>
      if element.Some? {
        BytesAppend([Root(t)], Nodes(element.value));
      } else {
        assert Nodes(t) == [Root(t)];
      }
    case Class(token, assembly, moduleName, args) =>
      BytesAppend([Root(t)], NodesOf(args));
      EncodeAllIs(args);
  }

  /** Two bytes a character, the low one first. */
  lemma {:induction false} NameBytesAt(ws: seq<wchar>, i: nat)
    requires i < |ws|
    ensures NameBytes(ws)[2 * i] == ws[i] % 256 && NameBytes(ws)[2 * i + 1] == ws[i] / 256
  {
    var n := |ws| - 1;
    if i < n {
      NameBytesAt(ws[..n], i);
    }
  }

  /** Element bytes that need no element type: BOOLEAN to R8, I and U. */
  lemma {:induction false} PrimitiveElements(t: Type)
    requires t.Array? && WellFormed(t)
    ensures t.element.None? <==> 0x02 <= t.elem <= 0x0D || t.elem == 0x18 || t.elem == 0x19
  {
  }

  /** No encoding is a proper prefix of another, and equal encodings are of equal types. */
  lemma {:induction false} PrefixFree(t: Type, u: Type, a: seq<byte>, b: seq<byte>)
    requires WellFormed(t) && WellFormed(u) && Encode(t) + a == Encode(u) + b
    ensures t == u && a == b
  {
    DecodeEncode(t, a);
    DecodeEncode(u, b);
  }

  // ----- the vectors in between -----

  datatype Vectors = Vectors(isValid: seq<bool>, isArray: seq<bool>, arrayTypes: seq<(byte, int)>, tokens: seq<int>,
                             typeArgsCount: seq<int>, moduleNames: seq<wchar>, moduleSizes: seq<int>,
                             assemblyNames: seq<wchar>, assemblySizes: seq<int>)

  const EMPTY := Vectors([], [], [], [], [], [], [], [], [])

  function Add(v: Vectors, n: Node): Vectors {
    match n
    case ArrayNode(elem, rank) =>
      v.(isValid := v.isValid + [true], isArray := v.isArray + [true], arrayTypes := v.arrayTypes + [(elem, rank)])
    case ClassNode(token, assembly, moduleName, argsCount) =>
      v.(isValid := v.isValid + [true], isArray := v.isArray + [false],
         tokens := v.tokens + [token], typeArgsCount := v.typeArgsCount + [argsCount],
         moduleNames := v.moduleNames + moduleName, moduleSizes := v.moduleSizes + [2 * |moduleName|],
         assemblyNames := v.assemblyNames + assembly, assemblySizes := v.assemblySizes + [2 * |assembly|])
  }

  function AddAll(v: Vectors, ns: seq<Node>): Vectors {
    if ns == [] then v else Add(AddAll(v, ns[..|ns| - 1]), ns[|ns| - 1])
  }

  lemma {:induction false} AddAllAppend(v: Vectors, a: seq<Node>, b: seq<Node>)
    ensures AddAll(v, a + b) == AddAll(AddAll(v, a), b)
    decreases |b|
  {
    hide Add;
    if b == [] {
      assert a + b == a;
    } else {
      var n := |b| - 1;
      AddAllAppend(v, a, b[..n]);
      assert (a + b)[..|a + b| - 1] == a + b[..n] && (a + b)[|a + b| - 1] == b[n];
    }
  }

  /** Everything the shorter list put into the vectors is still there, followed by node i's share. */
  predicate Extends(v: Vectors, w: Vectors) {
    && v.isValid <= w.isValid && v.isArray <= w.isArray && v.arrayTypes <= w.arrayTypes && v.tokens <= w.tokens
    && v.typeArgsCount <= w.typeArgsCount && v.moduleNames <= w.moduleNames && v.moduleSizes <= w.moduleSizes
    && v.assemblyNames <= w.assemblyNames && v.assemblySizes <= w.assemblySizes
  }

  lemma {:induction false} AddAllExtends(v: Vectors, ns: seq<Node>)
    ensures Extends(v, AddAll(v, ns))
    decreases |ns|
  {
    if ns != [] {
      AddAllExtends(v, ns[..|ns| - 1]);
    }
  }

  /** Sizes in step: one validity and kind per node, one of each per class. */
  lemma {:induction false} Aligned(ns: seq<Node>)
    ensures var v := AddAll(EMPTY, ns);
            && |v.isValid| == |v.isArray| == |ns| && (forall i :: 0 <= i < |ns| ==> v.isValid[i])
            && |v.tokens| == |v.typeArgsCount| == |v.moduleSizes| == |v.assemblySizes|
            && |v.arrayTypes| + |v.tokens| == |ns|
    decreases |ns|
  {
    if ns != [] {
      Aligned(ns[..|ns| - 1]);
    }
  }

  function TypeLength(v: Vectors): nat {
    |v.isValid| + |v.isArray| + 5 * |v.arrayTypes| + 4 * |v.tokens| + 4 * |v.typeArgsCount|
    + 2 * |v.moduleNames| + 4 * |v.moduleSizes| + 2 * |v.assemblyNames| + 4 * |v.assemblySizes|
  }

  /** The buffer size computed up front is exactly what is written. */
  lemma {:induction false} LengthIsExact(ns: seq<Node>)
    ensures TypeLength(AddAll(EMPTY, ns)) == |BytesOf(ns)|
    decreases |ns|
  {
    if ns != [] {
      LengthIsExact(ns[..|ns| - 1]);
    }
  }

  lemma {:induction false} NamesAppend(a: seq<wchar>, b: seq<wchar>)
    ensures NameBytes(a + b) == NameBytes(a) + NameBytes(b)
    decreases |b|
  {
    if b == [] {
      assert a + b == a;
    } else {
      var n := |b| - 1;
      NamesAppend(a, b[..n]);
      assert (a + b)[..|a + b| - 1] == a + b[..n];
    }
  }

  /** Copying a name out of the concatenated names, at the running position. */
  lemma {:induction false} NameAt(all: seq<wchar>, before: seq<wchar>, name: seq<wchar>)
    requires before + name <= all
    ensures 2 * |before| + 2 * |name| <= 2 * |all|
    ensures NameBytes(all)[2 * |before|..2 * |before| + 2 * |name|] == NameBytes(name)
  {
    var rest := all[|before + name|..];
    assert all == before + name + rest;
    NamesAppend(before + name, rest);
    NamesAppend(before, name);
  }

  class TypeWriter {
    var v: Vectors

    constructor ()
      ensures v == EMPTY
    {
      v := EMPTY;
    }

    /** Pushes a type and, recursively, its element type or arguments. */
    method ResolveType(t: Type)
      modifies this
      ensures v == AddAll(old(v), Nodes(t))
      decreases t, 1
    {
      hide Add;
      v := Add(v, Root(t));
      AddRoot(old(v), t);
      match t
      case Array(_, _, element) =>
        if element.Some? {
          ResolveType(element.value);
          AddAllAppend(old(v), [Root(t)], Nodes(element.value));
        } else {
          assert Nodes(t) == [Root(t)];
        }
      case Class(_, _, _, args) =>
        var i := 0;
        AddAllAppend(old(v), [Root(t)], []);
        while i < |args|
          invariant i <= |args|
          invariant AddAll(v, NodesOf(args[i..])) == AddAll(old(v), Nodes(t))
        {
          ghost var was := v;
          assert args[i..][0] == args[i] && args[i..][1..] == args[i + 1..];
          AddAllAppend(was, Nodes(args[i]), NodesOf(args[i + 1..]));
          ResolveType(args[i]);
          i := i + 1;
        }
    }

    /** The part of one class: token, names cut out of the joint name buffers, argument count. */
    method SerializeClass(tokenIndex: nat, assemblyNamesPtr: nat, moduleNamesPtr: nat, ghost w: Vectors, ghost n: Node) returns (bytes: seq<byte>)
      requires n.ClassNode? && HoldsClass(v, w, n)
      requires tokenIndex == |w.tokens| && assemblyNamesPtr == 2 * |w.assemblyNames| && moduleNamesPtr == 2 * |w.moduleNames|
      ensures bytes == NodeBytes(n)
    {
      hide NameBytes, LittleEndian;
      var assemblySize, moduleSize := v.assemblySizes[tokenIndex], v.moduleSizes[tokenIndex];
      NameAt(v.assemblyNames, w.assemblyNames, n.assembly);
      NameAt(v.moduleNames, w.moduleNames, n.moduleName);
      bytes := [1, 0] + LittleEndian(v.tokens[tokenIndex], 4)
               + LittleEndian(assemblySize, 4)
               + NameBytes(v.assemblyNames)[assemblyNamesPtr..assemblyNamesPtr + assemblySize]
               + LittleEndian(moduleSize, 4)
               + NameBytes(v.moduleNames)[moduleNamesPtr..moduleNamesPtr + moduleSize]
               + LittleEndian(v.typeArgsCount[tokenIndex], 4);
    }

    /** Reassembles the vectors into one preorder stream. */
    method SerializeType(ghost ns: seq<Node>) returns (bytes: seq<byte>, typeLength: nat)
      requires v == AddAll(EMPTY, ns)
      ensures bytes == BytesOf(ns) && typeLength == |bytes|
    {
      hide BytesOf, NameBytes, LittleEndian, AddAll, HoldsClass;
      typeLength := TypeLength(v);
      LengthIsExact(ns);
      Aligned(ns);
      bytes := [];
      NoNodes();
      assert ns[..0] == [];
      var arrayTypeIndex, tokenIndex := 0, 0;
      var moduleNamesPtr, assemblyNamesPtr := 0, 0;
      var i := 0;
      while i < |v.isValid|
        invariant i <= |v.isValid| == |ns| && bytes == BytesOf(ns[..i])
        invariant var w := AddAll(EMPTY, ns[..i]);
                  && arrayTypeIndex == |w.arrayTypes| && tokenIndex == |w.tokens|
                  && moduleNamesPtr == 2 * |w.moduleNames| && assemblyNamesPtr == 2 * |w.assemblyNames|
      {
        ghost var w := AddAll(EMPTY, ns[..i]);
        NodeShare(ns, i);
        assert v.isValid[i];
        if v.isArray[i] {
          var arrayType := v.arrayTypes[arrayTypeIndex];
          bytes := bytes + ([1, 1, arrayType.0] + LittleEndian(arrayType.1, 4));
          arrayTypeIndex := arrayTypeIndex + 1;
        } else {
          var part := SerializeClass(tokenIndex, assemblyNamesPtr, moduleNamesPtr, w, ns[i]);
          bytes := bytes + part;
          ClassSizes(v, w, ns[i]);
          assemblyNamesPtr, moduleNamesPtr := assemblyNamesPtr + v.assemblySizes[tokenIndex], moduleNamesPtr + v.moduleSizes[tokenIndex];
          tokenIndex := tokenIndex + 1;
        }
        i := i + 1;
      }
      assert ns[..i] == ns;
    }
  }

  /** The vectors v hold the parts of class n behind those of w. */
  predicate HoldsClass(v: Vectors, w: Vectors, n: Node)
    requires n.ClassNode?
  {
    var k := |w.tokens|;
    && k < |v.tokens| == |v.typeArgsCount| == |v.assemblySizes| == |v.moduleSizes|
    && v.tokens[k] == n.token && v.typeArgsCount[k] == n.argsCount
    && v.assemblySizes[k] == 2 * |n.assembly| && v.moduleSizes[k] == 2 * |n.moduleName|
    && w.assemblyNames + n.assembly <= v.assemblyNames && w.moduleNames + n.moduleName <= v.moduleNames
  }

  lemma {:induction false} ClassSizes(v: Vectors, w: Vectors, n: Node)
    requires n.ClassNode? && HoldsClass(v, w, n)
    ensures |w.tokens| < |v.assemblySizes| == |v.moduleSizes|
    ensures v.assemblySizes[|w.tokens|] == 2 * |n.assembly| && v.moduleSizes[|w.tokens|] == 2 * |n.moduleName|
  {
  }

  lemma {:induction false} AddRoot(v: Vectors, t: Type)
    ensures AddAll(v, [Root(t)]) == Add(v, Root(t))
    ensures t.Class? ==> AddAll(Add(v, Root(t)), NodesOf(t.args)) == AddAll(v, Nodes(t))
  {
    hide Add;
    assert [Root(t)][..0] == [];
    assert AddAll(v, [Root(t)][..0]) == v;
    if t.Class? {
      AddAllAppend(v, [Root(t)], NodesOf(t.args));
    }
  }

  /** What the indices point at when node i is next. */
  lemma {:induction false} NodeShare(ns: seq<Node>, i: nat)
    requires i < |ns|
    ensures var v, w, n := AddAll(EMPTY, ns), AddAll(EMPTY, ns[..i]), ns[i];
            && AddAll(EMPTY, ns[..i + 1]) == Add(w, n)
            && BytesOf(ns[..i + 1]) == BytesOf(ns[..i]) + NodeBytes(n)
            && i < |v.isArray| && v.isArray[i] == n.ArrayNode?
            && (n.ArrayNode? ==> |w.arrayTypes| < |v.arrayTypes| && v.arrayTypes[|w.arrayTypes|] == (n.elem, n.rank))
            && (n.ClassNode? ==> HoldsClass(v, w, n))
  {
    hide NodeBytes;
    var a, b := ns[..i + 1], ns[i + 1..];
    assert a[..|a| - 1] == ns[..i] && a[|a| - 1] == ns[i];
    assert ns == a + b;
    AddAllAppend(EMPTY, a, b);
    AddAllExtends(AddAll(EMPTY, a), b);
    Aligned(ns[..i]);
    Aligned(ns);
  }

  /** What is stored for an allocated object: its type's code, decodable in any context. */
  method SerializeObjectType(t: Type) returns (bytes: seq<byte>, typeLength: nat)
    requires WellFormed(t)
    ensures typeLength == |bytes|
    ensures forall rest :: Decode(bytes + rest) == Some((t, rest))
  {
    var w := new TypeWriter();
    w.ResolveType(t);
    bytes, typeLength := w.SerializeType(Nodes(t));
    forall rest ensures Decode(bytes + rest) == Some((t, rest)) {
      DecodeEncode(t, rest);
    }
  }
}
