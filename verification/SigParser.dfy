/** The recursive descent parser over its shared cursor. */
module SigParser {
  import opened Wrappers
  import opened Bytes
  import opened SigGrammar
  import opened SigParsing

  lemma {:induction false} ThenThen(a: seq<Event>, b: seq<Event>, r: Result)
    ensures Then(a, Then(b, r)) == Then(a + b, r)
  {
    if r.Some? {
      assert a + (b + r.value.events) == a + b + r.value.events;
    }
  }

  lemma {:induction false} ThenNothing(r: Result)
    ensures Then([], r) == r
  {
    if r.Some? {
      assert [] + r.value.events == r.value.events;
    }
  }

  /** One turn of the loop over a method's parameters: its notifications and what is left,
      if it succeeds. */
  function Turn(s: seq<byte>, seen: bool): Result {
    if s == [] || (s[0] == SENTINEL && seen) then None
    else if s[0] == SENTINEL then Then([Sentinel], SigParsing.ParseParam(s[1..], false))
    else SigParsing.ParseParam(s, false)
  }

  lemma {:induction false} NoParams(done: seq<Event>, s: seq<byte>, seen: bool)
    ensures Then(done, ParseParams(s, 0, seen)) == Some(Parsed(done, s))
  {
    assert done + [] == done;
  }

  lemma {:induction false} ParamTurn(done: seq<Event>, s: seq<byte>, n: nat, seen: bool)
    requires n > 0
    ensures var t := Turn(s, seen);
      Then(done, ParseParams(s, n, seen)) ==
      if t.None? then None else Then(done + t.value.events, ParseParams(t.value.rest, n - 1, seen || s[0] == SENTINEL))
  {
    hide SigParsing.ParseParam;
    var t := Turn(s, seen);
    if t.Some? {
      ThenThen(done, t.value.events, ParseParams(t.value.rest, n - 1, seen || s[0] == SENTINEL));
    }
  }

  class SigParser {
    const blob: seq<byte>
    var cur: nat
    var events: seq<Event>

    constructor (pb: seq<byte>)
      ensures blob == pb && cur == 0 && events == []
    {
      blob, cur, events := pb, 0, [];
    }

    ghost predicate Valid()
      reads this`cur
    {
      cur <= |blob|
    }

    ghost function Rest(): (s: seq<byte>)
      requires Valid()
      reads this`cur
      ensures |s| == |blob| - cur
    {
      blob[cur..]
    }

    /** The call returned ok exactly if r has a result, and then gave the
        notifications of r after es and left the cursor where r ends. */
    ghost predicate Did(es: seq<Event>, ok: bool, r: Result)
      reads this
    {
      Valid() && (ok <==> r.Some?) && (ok ==> events == es + r.value.events && Rest() == r.value.rest)
    }

    method Notify(e: Event)
      modifies this`events
      ensures events == old(events) + [e]
    {
      events := events + [e];
    }

    method AtEnd() returns (b: bool)
      requires Valid()
      ensures b <==> Rest() == []
    {
      b := cur >= |blob|;
    }

    method Peek() returns (b: byte)
      requires Valid() && Rest() != []
      ensures b == Rest()[0]
    {
      b := blob[cur];
    }

    method Skip()
      requires Valid() && Rest() != []
      modifies this`cur
      ensures Valid() && Rest() == old(Rest())[1..] && cur == old(cur) + 1
    {
      cur := cur + 1;
      assert blob[cur..] == blob[cur - 1..][1..];
    }

    method ParseByte() returns (ok: bool, b: byte)
      requires Valid()
      modifies this`cur
      ensures Valid()
      ensures ok <==> old(Rest()) != []
      ensures ok ==> b == old(Rest())[0] && Rest() == old(Rest())[1..] && cur == old(cur) + 1
      ensures !ok ==> cur == old(cur)
    {
      ok, b := false, 0;
      if cur < |blob| {
        b := blob[cur];
        Skip();
        ok := true;
      }
    }

    method ParseNumber() returns (ok: bool, n: nat)
      requires Valid()
      modifies this`cur
      ensures Valid()
      ensures ok <==> ReadNumber(old(Rest())).Some?
      ensures ok ==> ReadNumber(old(Rest())).value == (n, Rest()) && cur > old(cur)
    {
      ghost var s := Rest();
      n := 0;
      var b1, b2, b3, b4;
      ok, b1 := ParseByte();
      if !ok { return; }
      if b1 == 0xff { return false, 0; }
      if b1 < 0x80 { return true, b1 as int; }
      ok, b2 := ParseByte();
      if !ok { return; }
      assert s[1..][1..] == s[2..];
      if (b1 / 0x40) % 2 == 0 { return true, (b1 % 0x40) as int * 0x100 + b2 as int; }
      if (b1 / 0x20) % 2 != 0 { return false, 0; }
      ok, b3 := ParseByte();
      if !ok { return; }
      assert s[2..][1..] == s[3..];
      ok, b4 := ParseByte();
      if !ok { return; }
      assert s[3..][1..] == s[4..];
      n := (b1 % 0x20) as int * 0x100_0000 + b2 as int * 0x1_0000 + b3 as int * 0x100 + b4 as int;
    }

    method ParseTypeDefOrRefEncoded() returns (ok: bool, token: Token)
      requires Valid()
      modifies this`cur
      ensures Valid()
      ensures ok <==> ReadToken(old(Rest())).Some?
      ensures ok ==> ReadToken(old(Rest())).value == (token, Rest()) && cur > old(cur)
    {
      var n;
      ok, n := UncompressData();
      token := Token(n % 4, n / 4);
    }

    method UncompressData() returns (ok: bool, n: nat)
      requires Valid()
      modifies this`cur
      ensures Valid()
      ensures ok <==> ReadCoded(old(Rest())).Some?
      ensures ok ==> ReadCoded(old(Rest())).value == (n, Rest()) && cur > old(cur)
    {
      ghost var s := Rest();
      n := 0;
      var b1, b2, b3, b4;
      ok, b1 := ParseByte();
      if !ok { return; }
      if b1 < 0x80 { return true, b1 as int; }
      ok, b2 := ParseByte();
      if !ok { return; }
      assert s[1..][1..] == s[2..];
      if (b1 / 0x40) % 4 == 2 { return true, (b1 % 0x40) as int * 0x100 + b2 as int; }
      ok, b3 := ParseByte();
      if !ok { return; }
      assert s[2..][1..] == s[3..];
      ok, b4 := ParseByte();
      if !ok { return; }
      assert s[3..][1..] == s[4..];
      n := (b1 % 0x20) as int * 0x100_0000 + b2 as int * 0x1_0000 + b3 as int * 0x100 + b4 as int;
    }

    /** One custom modifier. */
    method ParseCustomMod() returns (ok: bool)
      requires Valid()
      modifies this
      ensures Valid()
      ensures ok <==> old(Rest()) != [] && !NoMod(old(Rest())) && ReadToken(old(Rest())[1..]).Some?
      ensures ok ==> var s := old(Rest()); var t := ReadToken(s[1..]);
        events == old(events) + [CustomModSeen(s[0], t.value.0)] && Rest() == t.value.1 && cur > old(cur)
    {
      hide ReadToken;
      var cmod, token;
      ok, cmod := ParseByte();
      if !ok { return; }
      if cmod != CMOD_OPT && cmod != CMOD_REQD { return false; }
      ok, token := ParseTypeDefOrRefEncoded();
      if !ok { return; }
      Notify(CustomModSeen(cmod, token));
    }

    method ParseOptionalCustomMods() returns (ok: bool)
      requires Valid()
      modifies this
      ensures Did(old(events), ok, ParseMods(old(Rest())))
      ensures ok ==> cur >= old(cur)
    {
      hide ReadToken;
      ghost var whole, done := ParseMods(Rest()), [];
      ThenNothing(whole);
      while true
        invariant Valid() && cur >= old(cur)
        invariant whole == Then(done, ParseMods(Rest()))
        invariant events == old(events) + done
        decreases |blob| - cur
      {
        var end := AtEnd();
        if end { return true; }
        var b := Peek();
        if b != CMOD_OPT && b != CMOD_REQD { return true; }
        ghost var s := Rest();
        ok := ParseCustomMod();
        if !ok { return; }
        ghost var e := CustomModSeen(s[0], ReadToken(s[1..]).value.0);
        ThenThen(done, [e], ParseMods(Rest()));
        done := done + [e];
      }
    }

    method ParseOptionalCustomModsOrConstraint() returns (ok: bool)
      requires Valid()
      modifies this
      ensures Did(old(events), ok, ParseModsOrConstraint(old(Rest())))
      ensures ok ==> cur >= old(cur)
    {
      hide ReadToken;
      ghost var whole, done := ParseModsOrConstraint(Rest()), [];
      ThenNothing(whole);
      while true
        invariant Valid() && cur >= old(cur)
        invariant whole == Then(done, ParseModsOrConstraint(Rest()))
        invariant events == old(events) + done
        decreases |blob| - cur
      {
        var end := AtEnd();
        if end { return true; }
        var b := Peek();
        if b == CMOD_OPT || b == CMOD_REQD {
          ghost var s := Rest();
          ok := ParseCustomMod();
          if !ok { return; }
          ghost var e := CustomModSeen(s[0], ReadToken(s[1..]).value.0);
          ThenThen(done, [e], ParseModsOrConstraint(Rest()));
          done := done + [e];
        } else if b == PINNED {
          Notify(Constraint(b));
          Skip();
          ThenThen(done, [Constraint(PINNED)], ParseModsOrConstraint(Rest()));
          done := done + [Constraint(PINNED)];
        } else {
          return true;
        }
      }
    }

    /** The loop over sizes, or with lo the one over lower bounds. */
    method ParseNumbersLoop(count: nat, lo: bool) returns (ok: bool)
      requires Valid()
      modifies this
      ensures Did(old(events), ok, ParseNumbers(old(Rest()), count, lo))
      ensures ok ==> cur >= old(cur)
    {
      hide ReadNumber;
      ghost var whole, done := ParseNumbers(Rest(), count, lo), [];
      ThenNothing(whole);
      var i, n := 0, 0;
      while i < count
        invariant Valid() && cur >= old(cur) && i <= count
        invariant whole == Then(done, ParseNumbers(Rest(), count - i, lo))
        invariant events == old(events) + done
      {
        ok, n := ParseNumber();
        if !ok { return; }
        var e := if lo then LoBound(n) else Size(n);
        Notify(e);
        ThenThen(done, [e], ParseNumbers(Rest(), count - i - 1, lo));
        done := done + [e];
        i := i + 1;
      }
      ok := true;
    }

    method ParseArrayShape() returns (ok: bool)
      requires Valid()
      modifies this
      ensures Did(old(events), ok, SigParsing.ParseArrayShape(old(Rest())))
      ensures ok ==> cur >= old(cur)
    {
      hide ReadNumber, ParseNumbers, SigParser.Rest;
      var rank, numSizes, numLo;
      Notify(Open(InArrayShape));
      ok, rank := ParseNumber();
      if !ok { return; }
      Notify(Rank(rank));
      ok, numSizes := ParseNumber();
      if !ok { return; }
      Notify(NumSizes(numSizes));
      assert events == old(events) + [Open(InArrayShape), Rank(rank), NumSizes(numSizes)];
      ok := ParseNumbersLoop(numSizes, false);
      if !ok { return; }
      ok, numLo := ParseNumber();
      if !ok { return; }
      Notify(NumLoBounds(numLo));
      ok := ParseNumbersLoop(numLo, true);
      if !ok { return; }
      Notify(End(InArrayShape));
    }

    method ParseType() returns (ok: bool)
      requires Valid()
      modifies this
      ensures Did(old(events), ok, SigParsing.ParseType(old(Rest())))
      ensures ok ==> cur > old(cur)
      decreases |blob| - cur, 1
    {
      hide ParseTypeInner;
      var e;
      Notify(Open(InType));
      ok, e := ParseByte();
      if !ok { return; }
      ok := ParseTypeBody(e);
      if !ok { return; }
      Notify(End(InType));
    }

    /** Behind the element type byte. */
    method ParseTypeBody(e: byte) returns (ok: bool)
      requires Valid()
      modifies this
      ensures Did(old(events), ok, ParseTypeInner(e, old(Rest())))
      ensures ok ==> cur >= old(cur)
      decreases |blob| - cur, 3
    {
      hide ReadNumber, ReadToken, SigParsing.ParseType, ParseTypes, SigParsing.ParseMethod, SigParsing.ParseArrayShape, ParseMods, SigParser.Rest;
      var token, n;
      ok := true;
      if IsSimple(e) {
        Notify(TypeSimple(e));
      } else if e == PTR {
        ok := ParsePointer();
      } else if e == CLASS {
        Notify(TypeClass);
        ok, token := ParseTypeDefOrRefEncoded();
        if !ok { return; }
        Notify(TypeDefOrRef(token));
      } else if e == VALUETYPE {
        Notify(TypeValueType);
        ok, token := ParseTypeDefOrRefEncoded();
        if !ok { return; }
        Notify(TypeDefOrRef(token));
      } else if e == FNPTR {
        var conv;
        Notify(TypeFunctionPointer);
        ok, conv := ParseByte();
        if !ok { return; }
        ok := ParseMethod(conv);
      } else if e == ARRAY {
        Notify(TypeArray);
        ok := ParseType();
        if !ok { return; }
        ok := ParseArrayShape();
      } else if e == SZARRAY {
        Notify(TypeSzArray);
        ok := ParseOptionalCustomMods();
        if !ok { return; }
        ok := ParseType();
      } else if e == GENERICINST {
        ok := ParseGenericInst();
      } else if e == VAR {
        ok, n := ParseNumber();
        if !ok { return; }
        Notify(TypeGenericTypeVariable(n));
      } else if e == MVAR {
        ok, n := ParseNumber();
        if !ok { return; }
        Notify(TypeGenericMemberVariable(n));
      }
    }

    method ParsePointer() returns (ok: bool)
      requires Valid()
      modifies this
      ensures Did(old(events), ok, ParseTypeInner(PTR, old(Rest())))
      ensures ok ==> cur >= old(cur)
      decreases |blob| - cur, 2
    {
      hide SigParsing.ParseType, ParseMods;
      Notify(TypePointer);
      ok := ParseOptionalCustomMods();
      if !ok { return; }
      var end := AtEnd();
      if end { return false; }
      var b := Peek();
      if b == VOID {
        Skip();
        Notify(VoidSeen);
        return true;
      }
      ok := ParseType();
    }

    method ParseGenericInst() returns (ok: bool)
      requires Valid()
      modifies this
      ensures Did(old(events), ok, ParseTypeInner(GENERICINST, old(Rest())))
      ensures ok ==> cur >= old(cur)
      decreases |blob| - cur, 2
    {
      hide ReadNumber, ReadToken, ParseTypes;
      var kind, token, number;
      ok, kind := ParseByte();
      if !ok { return; }
      if kind != CLASS && kind != VALUETYPE { return false; }
      ok, token := ParseTypeDefOrRefEncoded();
      if !ok { return; }
      ok, number := ParseNumber();
      if !ok { return; }
      Notify(TypeGenericInst(kind, token, number));
      ok := ParseTypesLoop(number);
    }

    method ParseTypesLoop(number: nat) returns (ok: bool)
      requires Valid()
      modifies this
      ensures Did(old(events), ok, ParseTypes(old(Rest()), number))
      ensures ok ==> cur >= old(cur)
      decreases |blob| - cur, 2
    {
      hide SigParsing.ParseType;
      ghost var whole, done := ParseTypes(Rest(), number), [];
      ThenNothing(whole);
      var i := 0;
      while i < number
        invariant Valid() && cur >= old(cur) && i <= number
        invariant whole == Then(done, ParseTypes(Rest(), number - i))
        invariant events == old(events) + done
      {
        ghost var es, t := events, SigParsing.ParseType(Rest());
        ok := ParseType();
        if !ok { return; }
        ThenThen(done, t.value.events, ParseTypes(Rest(), number - i - 1));
        done := done + t.value.events;
        i := i + 1;
      }
      ok := true;
    }

    /** Behind the modifiers of a parameter or a return type. */
    method ParseSlotBody(ret: bool) returns (ok: bool)
      requires Valid()
      modifies this
      ensures Did(old(events), ok, ParseSlot(old(Rest()), ret))
      ensures ok ==> cur > old(cur)
      decreases |blob| - cur, 2
    {
      hide SigParsing.ParseType;
      var end := AtEnd();
      if end { return false; }
      var b := Peek();
      if b == TYPEDBYREF {
        Notify(TypedByrefSeen);
        Skip();
        return true;
      }
      if ret && b == VOID {
        Notify(VoidSeen);
        Skip();
        return true;
      }
      if b == BYREF {
        Notify(ByrefSeen);
        Skip();
      }
      ok := ParseType();
    }

    method ParseParam() returns (ok: bool)
      requires Valid()
      modifies this
      ensures Did(old(events), ok, SigParsing.ParseParam(old(Rest()), false))
      ensures ok ==> cur > old(cur)
      decreases |blob| - cur, 3
    {
      hide ParseMods, ParseSlot;
      Notify(Open(InParam));
      ok := ParseOptionalCustomMods();
      if !ok { return; }
      ok := ParseSlotBody(false);
      if !ok { return; }
      Notify(End(InParam));
    }

    method ParseRetType() returns (ok: bool)
      requires Valid()
      modifies this
      ensures Did(old(events), ok, SigParsing.ParseParam(old(Rest()), true))
      ensures ok ==> cur > old(cur)
      decreases |blob| - cur, 3
    {
      hide ParseMods, ParseSlot;
      Notify(Open(InRetType));
      ok := ParseOptionalCustomMods();
      if !ok { return; }
      ok := ParseSlotBody(true);
      if !ok { return; }
      Notify(End(InRetType));
    }

    method ParseMethod(e: byte) returns (ok: bool)
      requires Valid()
      modifies this
      ensures Did(old(events), ok, SigParsing.ParseMethod(e, old(Rest())))
      ensures ok ==> cur >= old(cur)
      decreases |blob| - cur, 7
    {
      hide ReadNumber, ParseSignature;
      var g;
      Notify(Begin(InMethod, e));
      if IsGeneric(e) {
        ok, g := ParseNumber();
        if !ok { return; }
        Notify(GenericParamCount(g));
      }
      ok := ParseSignatureBody();
      if !ok { return; }
      Notify(End(InMethod));
    }

    /** Parameter count, return type and parameters. */
    method ParseSignatureBody() returns (ok: bool)
      requires Valid()
      modifies this
      ensures Did(old(events), ok, ParseSignature(old(Rest())))
      ensures ok ==> cur >= old(cur)
      decreases |blob| - cur, 6
    {
      hide ReadNumber, ParseParams, SigParsing.ParseParam;
      var count;
      ok, count := ParseNumber();
      if !ok { return; }
      Notify(Count(InParam, count));
      ok := ParseRetType();
      if !ok { return; }
      ok := ParseParamsLoop(count);
    }

    /** A parameter, with the sentinel if it stands in front of it. */
    method ParseNextParam(seen: bool) returns (ok: bool, seen': bool)
      requires Valid()
      modifies this
      ensures Did(old(events), ok, Turn(old(Rest()), seen))
      ensures ok ==> cur > old(cur) && seen' == (seen || old(Rest())[0] == SENTINEL)
      decreases |blob| - cur, 4
    {
      hide SigParsing.ParseParam;
      seen' := seen;
      var end := AtEnd();
      if end { return false, seen; }
      var b := Peek();
      if b == SENTINEL {
        if seen { return false, seen; }
        seen' := true;
        Notify(Sentinel);
        Skip();
      }
      ok := ParseParam();
    }

    method ParseParamsLoop(count: nat) returns (ok: bool)
      requires Valid()
      modifies this
      ensures Did(old(events), ok, ParseParams(old(Rest()), count, false))
      ensures ok ==> cur >= old(cur)
      decreases |blob| - cur, 5
    {
      hide Turn, ParseParams, SigParser.Rest;
      ghost var whole, done := ParseParams(Rest(), count, false), [];
      ThenNothing(whole);
      var i, encounteredSentinel := 0, false;
      while i < count
        invariant Valid() && cur >= old(cur) && i <= count
        invariant whole == Then(done, ParseParams(Rest(), count - i, encounteredSentinel))
        invariant events == old(events) + done
      {
        ghost var t := Turn(Rest(), encounteredSentinel);
        ParamTurn(done, Rest(), count - i, encounteredSentinel);
        ok, encounteredSentinel := ParseNextParam(encounteredSentinel);
        if !ok { return; }
        done := done + t.value.events;
        i := i + 1;
      }
      ok := true;
      NoParams(done, Rest(), encounteredSentinel);
    }

    method ParsePropertyParamsLoop(count: nat) returns (ok: bool)
      requires Valid()
      modifies this
      ensures Did(old(events), ok, ParsePropertyParams(old(Rest()), count))
    {
      hide SigParsing.ParseParam;
      ghost var whole, done := ParsePropertyParams(Rest(), count), [];
      ThenNothing(whole);
      var i := 0;
      while i < count
        invariant Valid() && i <= count
        invariant whole == Then(done, ParsePropertyParams(Rest(), count - i))
        invariant events == old(events) + done
      {
        ghost var p := SigParsing.ParseParam(Rest(), false);
        ok := ParseParam();
        if !ok { return; }
        ThenThen(done, p.value.events, ParsePropertyParams(Rest(), count - i - 1));
        done := done + p.value.events;
        i := i + 1;
      }
      ok := true;
    }

    method ParseLocal() returns (ok: bool)
      requires Valid()
      modifies this
      ensures Did(old(events), ok, SigParsing.ParseLocal(old(Rest())))
    {
      hide ParseModsOrConstraint, SigParsing.ParseType, SigParser.Rest;
      Notify(Open(InLocal));
      var end := AtEnd();
      if end { return false; }
      var b := Peek();
      if b == TYPEDBYREF {
        Notify(TypedByrefSeen);
        Skip();
        Notify(End(InLocal));
        assert events == old(events) + [Open(InLocal), TypedByrefSeen, End(InLocal)];
        return true;
      } else {
        ok := ParseOptionalCustomModsOrConstraint();
        if !ok { return; }
        end := AtEnd();
        if end { return false; }
        b := Peek();
        if b == BYREF {
          Notify(ByrefSeen);
          Skip();
        }
        ok := ParseType();
        if !ok { return; }
      }
      Notify(End(InLocal));
      ok := true;
    }

    method ParseLocalsLoop(count: nat) returns (ok: bool)
      requires Valid()
      modifies this
      ensures Did(old(events), ok, ParseLocalList(old(Rest()), count))
    {
      hide SigParsing.ParseLocal;
      ghost var whole, done := ParseLocalList(Rest(), count), [];
      ThenNothing(whole);
      var i := 0;
      while i < count
        invariant Valid() && i <= count
        invariant whole == Then(done, ParseLocalList(Rest(), count - i))
        invariant events == old(events) + done
      {
        ghost var l := SigParsing.ParseLocal(Rest());
        ok := ParseLocal();
        if !ok { return; }
        ThenThen(done, l.value.events, ParseLocalList(Rest(), count - i - 1));
        done := done + l.value.events;
        i := i + 1;
      }
      ok := true;
    }

    method ParseField(e: byte) returns (ok: bool)
      requires Valid()
      modifies this
      ensures Did(old(events), ok, FieldPart(e, old(Rest())))
    {
      hide ParseMods, SigParsing.ParseType;
      Notify(Begin(InField, e));
      ok := ParseOptionalCustomMods();
      if !ok { return; }
      ok := ParseType();
      if !ok { return; }
      Notify(End(InField));
    }

    method ParseProperty(e: byte) returns (ok: bool)
      requires Valid()
      modifies this
      ensures Did(old(events), ok, PropertyPart(e, old(Rest())))
    {
      hide ReadNumber, ParseMods, SigParsing.ParseType, ParsePropertyParams;
      var count;
      Notify(Begin(InProperty, e));
      ok, count := ParseNumber();
      if !ok { return; }
      Notify(Count(InParam, count));
      assert events == old(events) + [Begin(InProperty, e), Count(InParam, count)];
      ok := ParseOptionalCustomMods();
      if !ok { return; }
      ok := ParseType();
      if !ok { return; }
      ok := ParsePropertyParamsLoop(count);
      if !ok { return; }
      Notify(End(InProperty));
    }

    method ParseLocals(e: byte) returns (ok: bool)
      requires Valid()
      modifies this
      ensures Did(old(events), ok, LocalsPart(e, old(Rest())))
    {
      hide ReadNumber, ParseLocalList;
      var count;
      Notify(Begin(InLocals, e));
      ok, count := ParseNumber();
      if !ok { return; }
      Notify(Count(InLocal, count));
      assert events == old(events) + [Begin(InLocals, e), Count(InLocal, count)];
      ok := ParseLocalsLoop(count);
      if !ok { return; }
      Notify(End(InLocals));
    }

    /** The whole parse: what it does on any blob, and, for a blob that begins with a
        signature of the grammar, that it reads that signature and nothing else. */
    method Parse() returns (ok: bool)
      requires cur == 0 && events == []
      modifies this
      ensures Did([], ok, SigParsing.Parse(blob))
      ensures forall sig, rest :: SigOk(sig) && blob == SigBytes(sig) + rest ==>
        ok && events == SigEvents(sig) && Rest() == rest && cur == |SigBytes(sig)|
      ensures ok ==> Nested(events)
    {
      hide SigParsing.ParseMethod, FieldPart, PropertyPart, LocalsPart, Nested;
      var e;
      assert blob[0..] == blob;
      ok, e := ParseByte();
      if ok {
        if IsMethodKind(e) {
          ok := ParseMethod(e);
        } else if e % 16 == 6 {
          ok := ParseField(e);
        } else if e % 16 == 7 {
          ok := ParseLocals(e);
        } else if e % 16 == 8 {
          ok := ParseProperty(e);
        } else {
          ok := false;
        }
      }
      AcceptedIsNested(blob);
      assert ok ==> [] + SigParsing.Parse(blob).value.events == SigParsing.Parse(blob).value.events;
      forall sig, rest | SigOk(sig) && blob == SigBytes(sig) + rest
        ensures ok && events == SigEvents(sig) && Rest() == rest && cur == |SigBytes(sig)|
      {
        hide SigParsing.Parse;
        SigReadBack(sig, rest);
        assert [] + SigEvents(sig) == SigEvents(sig);
      }
    }
  }
}
