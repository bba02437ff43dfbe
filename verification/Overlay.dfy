/** The boot ROM over the top 64 bytes of memory (src/spc700.c): the fast form, which copies
    the ROM in when it is shown and the covered RAM back when it is hidden, against the
    accurate form, which looks at every load. */
module Overlay {
  import opened Bits
  import opened Aram

  const ROM_BASE := 0xffc0
  const ROM_SIZE := 0x40

  /** The mask ROM's contents play no part; only its size does. */
  ghost predicate IsRom(rom: seq<u8>) { |rom| == ROM_SIZE }

  predicate InRom(a: int) { ROM_BASE <= a < ARAM_SIZE }

  /** The default build: `extra` keeps what the ROM covers. */
  datatype Fast = Fast(mem: seq<u8>, extra: seq<u8>, shown: bool) {
    ghost predicate Valid() { IsMemory(mem) && |extra| == ROM_SIZE }
  }

  /** The ACCURATE_IPL_ROM build. */
  datatype Exact = Exact(mem: seq<u8>, shown: bool) {
    ghost predicate Valid() { IsMemory(mem) }
  }

  /** memcpy of a 64-byte piece over the ROM area. */
  function Over(mem: seq<u8>, piece: seq<u8>): (r: seq<u8>)
    requires IsMemory(mem) && |piece| == ROM_SIZE
    ensures IsMemory(r)
    ensures forall a :: 0 <= a < |mem| ==> r[a] == if InRom(a) then piece[a - ROM_BASE] else mem[a]
  {
    mem[..ROM_BASE] + piece + mem[ARAM_SIZE..]
  }

  function Area(mem: seq<u8>): (r: seq<u8>)
    requires IsMemory(mem)
    ensures |r| == ROM_SIZE
  {
    mem[ROM_BASE..ARAM_SIZE]
  }

  function FastShow(f: Fast, show: bool, rom: seq<u8>): (r: Fast)
    requires f.Valid() && IsRom(rom)
    ensures r.Valid()
  {
    if show == f.shown then f
    else if show then Fast(Over(f.mem, rom), Area(f.mem), true)
    else Fast(Over(f.mem, f.extra), f.extra, false)
  }

  function ExactShow(e: Exact, show: bool): Exact { e.(shown := show) }

  function FastLoad(f: Fast, a: u16): u8
    requires f.Valid()
  {
    f.mem[a]
  }

  function ExactLoad(e: Exact, a: u16, rom: seq<u8>): u8
    requires e.Valid() && IsRom(rom)
  {
    if e.shown && InRom(a) then rom[a - ROM_BASE] else e.mem[a]
  }

  function FastStore(f: Fast, a: u16, b: u8): (r: Fast)
    requires f.Valid()
    ensures r.Valid()
  {
    f.(mem := f.mem[a := b])
  }

  function ExactStore(e: Exact, a: u16, b: u8): (r: Exact)
    requires e.Valid()
    ensures r.Valid()
  {
    e.(mem := e.mem[a := b])
  }

  /** In numbers: showing puts the ROM over $ffc0 to $ffff and hiding puts the saved bytes
      back there; nothing else changes, and what is shown already, or hidden, stays. */
  lemma ShowInNumbers(f: Fast, show: bool, rom: seq<u8>, a: u16)
    requires f.Valid() && IsRom(rom)
    ensures FastLoad(FastShow(f, show, rom), a)
            == if show == f.shown || a < 0xffc0 then f.mem[a] else if show then rom[a - 0xffc0] else f.extra[a - 0xffc0]
    ensures a >= 0xffc0 ==>
              FastShow(f, show, rom).extra[a - 0xffc0] == if show && !f.shown then f.mem[a] else f.extra[a - 0xffc0]
    ensures FastShow(f, show, rom).shown == show
  {
  }

  /** Both forms stand for the same memory under the same overlay. */
  ghost predicate Same(f: Fast, e: Exact, rom: seq<u8>)
    requires f.Valid() && e.Valid() && IsRom(rom)
  {
    && f.shown == e.shown
    && (forall a: u16 :: !InRom(a) ==> f.mem[a] == e.mem[a])
    && (forall a: u16 :: InRom(a) ==>
          if f.shown then f.mem[a] == rom[a - ROM_BASE] && f.extra[a - ROM_BASE] == e.mem[a]
          else f.mem[a] == e.mem[a])
  }

  ghost predicate LoadsAgree(f: Fast, e: Exact, rom: seq<u8>)
    requires f.Valid() && e.Valid() && IsRom(rom)
  {
    forall a: u16 :: FastLoad(f, a) == ExactLoad(e, a, rom)
  }

  /** Sameness is exactly what loads can see: now, and after the overlay has been toggled. */
  lemma SameIsIndistinguishable(f: Fast, e: Exact, rom: seq<u8>)
    requires f.Valid() && e.Valid() && IsRom(rom) && f.shown == e.shown
    ensures Same(f, e, rom) <==>
              LoadsAgree(f, e, rom) && LoadsAgree(FastShow(f, !f.shown, rom), ExactShow(e, !e.shown), rom)
  {
    var f2, e2 := FastShow(f, !f.shown, rom), ExactShow(e, !e.shown);
    if LoadsAgree(f, e, rom) && LoadsAgree(f2, e2, rom) {
      forall a: u16
        ensures !InRom(a) ==> f.mem[a] == e.mem[a]
        ensures InRom(a) ==>
                  if f.shown then f.mem[a] == rom[a - ROM_BASE] && f.extra[a - ROM_BASE] == e.mem[a]
                  else f.mem[a] == e.mem[a]
      {
        assert FastLoad(f, a) == ExactLoad(e, a, rom) && FastLoad(f2, a) == ExactLoad(e2, a, rom);
      }
    }
  }

  lemma ShowKeepsSame(f: Fast, e: Exact, show: bool, rom: seq<u8>)
    requires f.Valid() && e.Valid() && IsRom(rom) && Same(f, e, rom)
    ensures Same(FastShow(f, show, rom), ExactShow(e, show), rom)
  {
    forall a: u16 | InRom(a)
      ensures Area(f.mem)[a - ROM_BASE] == f.mem[a]
    {
    }
  }

  /** A store keeps the two forms the same exactly when it does not hit the shown ROM, or
      happens to store the ROM's own byte over an equal byte of the covered RAM. */
  lemma StoreKeepsSameExactly(f: Fast, e: Exact, a: u16, b: u8, rom: seq<u8>)
    requires f.Valid() && e.Valid() && IsRom(rom) && Same(f, e, rom)
    ensures Same(FastStore(f, a, b), ExactStore(e, a, b), rom) <==>
              !(f.shown && InRom(a)) || (b == rom[a - ROM_BASE] && b == e.mem[a])
  {
    var f2, e2 := FastStore(f, a, b), ExactStore(e, a, b);
    if f.shown && InRom(a) {
      assert f2.mem[a] == b && e2.mem[a] == b && f2.extra[a - ROM_BASE] == e.mem[a];
    }
  }

  // ---- whole sequences ----

  datatype Op = Load(a: u16) | Store(a: u16, b: u8) | Show(on: bool)

  /** No store hits the ROM while it is shown. */
  ghost predicate Guarded(shown: bool, ops: seq<Op>)
    decreases |ops|
  {
    ops != [] ==>
      match ops[0]
      case Load(_) => Guarded(shown, ops[1..])
      case Store(a, _) => !(shown && InRom(a)) && Guarded(shown, ops[1..])
      case Show(on) => Guarded(on, ops[1..])
  }

  /** The bytes loaded, in order, and the state left. */
  ghost function FastRun(f: Fast, ops: seq<Op>, rom: seq<u8>): (r: (seq<u8>, Fast))
    requires f.Valid() && IsRom(rom)
    ensures r.1.Valid()
    decreases |ops|
  {
    if ops == [] then ([], f)
    else
      match ops[0]
      case Load(a) => var r := FastRun(f, ops[1..], rom); ([FastLoad(f, a)] + r.0, r.1)
      case Store(a, b) => FastRun(FastStore(f, a, b), ops[1..], rom)
      case Show(on) => FastRun(FastShow(f, on, rom), ops[1..], rom)
  }

  ghost function ExactRun(e: Exact, ops: seq<Op>, rom: seq<u8>): (r: (seq<u8>, Exact))
    requires e.Valid() && IsRom(rom)
    ensures r.1.Valid()
    decreases |ops|
  {
    if ops == [] then ([], e)
    else
      match ops[0]
      case Load(a) => var r := ExactRun(e, ops[1..], rom); ([ExactLoad(e, a, rom)] + r.0, r.1)
      case Store(a, b) => ExactRun(ExactStore(e, a, b), ops[1..], rom)
      case Show(on) => ExactRun(ExactShow(e, on), ops[1..], rom)
  }

  /** The copying form refines the checking form: every load of every guarded sequence
      returns the same byte. */
  lemma {:induction false} FastRefinesExact(f: Fast, e: Exact, ops: seq<Op>, rom: seq<u8>)
    requires f.Valid() && e.Valid() && IsRom(rom) && Same(f, e, rom) && Guarded(f.shown, ops)
    ensures FastRun(f, ops, rom).0 == ExactRun(e, ops, rom).0
    ensures Same(FastRun(f, ops, rom).1, ExactRun(e, ops, rom).1, rom)
    decreases |ops|
  {
    if ops != [] {
      match ops[0] {
        case Load(a) =>
          assert FastLoad(f, a) == ExactLoad(e, a, rom);
          FastRefinesExact(f, e, ops[1..], rom);
        case Store(a, b) =>
          StoreKeepsSameExactly(f, e, a, b, rom);
          FastRefinesExact(FastStore(f, a, b), ExactStore(e, a, b), ops[1..], rom);
        case Show(on) =>
          ShowKeepsSame(f, e, on, rom);
          FastRefinesExact(FastShow(f, on, rom), ExactShow(e, on), ops[1..], rom);
      }
    }
  }

  lemma {:induction false} ExactKeepsCovered(e: Exact, ops: seq<Op>, rom: seq<u8>, a: u16)
    requires e.Valid() && IsRom(rom) && e.shown && InRom(a)
    requires Guarded(true, ops) && forall k :: 0 <= k < |ops| ==> !ops[k].Show?
    ensures ExactRun(e, ops, rom).1.mem[a] == e.mem[a] && ExactRun(e, ops, rom).1.shown
    decreases |ops|
  {
    if ops != [] {
      assert forall k :: 0 <= k < |ops[1..]| ==> ops[1..][k] == ops[k + 1];
      match ops[0] {
        case Load(_) => ExactKeepsCovered(e, ops[1..], rom, a);
        case Store(b, x) => ExactKeepsCovered(ExactStore(e, b, x), ops[1..], rom, a);
      }
    }
  }

  /** Hiding the ROM restores the RAM it covered: show it, do anything guarded, hide it. */
  lemma {:induction false} HidingRestores(f: Fast, ops: seq<Op>, rom: seq<u8>)
    requires f.Valid() && IsRom(rom) && !f.shown
    requires Guarded(true, ops) && forall k :: 0 <= k < |ops| ==> !ops[k].Show?
    ensures Area(FastShow(FastRun(FastShow(f, true, rom), ops, rom).1, false, rom).mem) == Area(f.mem)
  {
    hide FastRun, ExactRun, Guarded, Over, Area, FastShow, Same;
    var e := Exact(f.mem, false);
    assert Same(f, e, rom) by {
      HiddenIsSame(f, rom);
    }
    ShowKeepsSame(f, e, true, rom);
    ShownAfterShow(f, rom);
    var f1, e1 := FastShow(f, true, rom), ExactShow(e, true);
    FastRefinesExact(f1, e1, ops, rom);
    var f2, e2 := FastRun(f1, ops, rom).1, ExactRun(e1, ops, rom).1;
    ShowKeepsSame(f2, e2, false, rom);
    var f3, e3 := FastShow(f2, false, rom), ExactShow(e2, false);
    forall a: u16 | InRom(a)
      ensures f3.mem[a] == f.mem[a]
    {
      ExactKeepsCovered(e1, ops, rom, a);
      SameWhenHidden(f3, e3, rom, a);
    }
    SameArea(f3.mem, f.mem);
  }

  lemma HiddenIsSame(f: Fast, rom: seq<u8>)
    requires f.Valid() && IsRom(rom) && !f.shown
    ensures Same(f, Exact(f.mem, false), rom)
  {
  }

  lemma ShownAfterShow(f: Fast, rom: seq<u8>)
    requires f.Valid() && IsRom(rom)
    ensures FastShow(f, true, rom).shown
  {
  }

  lemma SameWhenHidden(f: Fast, e: Exact, rom: seq<u8>, a: u16)
    requires f.Valid() && e.Valid() && IsRom(rom) && Same(f, e, rom) && !e.shown
    ensures f.mem[a] == e.mem[a]
  {
  }

  lemma SameArea(m: seq<u8>, n: seq<u8>)
    requires IsMemory(m) && IsMemory(n) && forall a: u16 :: InRom(a) ==> m[a] == n[a]
    ensures Area(m) == Area(n)
  {
  }

  lemma {:induction false} FastRunSplit(f: Fast, a: seq<Op>, b: seq<Op>, rom: seq<u8>)
    requires f.Valid() && IsRom(rom)
    ensures var r := FastRun(f, a, rom); var t := FastRun(r.1, b, rom); FastRun(f, a + b, rom) == (r.0 + t.0, t.1)
    decreases |a|
  {
    hide FastShow, FastStore, FastLoad;
    if a == [] {
      assert a + b == b;
      assert [] + FastRun(f, b, rom).0 == FastRun(f, b, rom).0;
    } else {
      assert (a + b)[1..] == a[1..] + b;
      match a[0] {
        case Load(x) =>
          FastRunSplit(f, a[1..], b, rom);
          var r := FastRun(f, a[1..], rom);
          assert [FastLoad(f, x)] + (r.0 + FastRun(r.1, b, rom).0) == [FastLoad(f, x)] + r.0 + FastRun(r.1, b, rom).0;
        case Store(x, y) => FastRunSplit(FastStore(f, x, y), a[1..], b, rom);
        case Show(on) => FastRunSplit(FastShow(f, on, rom), a[1..], b, rom);
      }
    }
  }

  lemma {:induction false} ExactRunSplit(e: Exact, a: seq<Op>, b: seq<Op>, rom: seq<u8>)
    requires e.Valid() && IsRom(rom)
    ensures var r := ExactRun(e, a, rom); var t := ExactRun(r.1, b, rom); ExactRun(e, a + b, rom) == (r.0 + t.0, t.1)
    decreases |a|
  {
    hide ExactStore, ExactLoad;
    if a == [] {
      assert a + b == b;
      assert [] + ExactRun(e, b, rom).0 == ExactRun(e, b, rom).0;
    } else {
      assert (a + b)[1..] == a[1..] + b;
      match a[0] {
        case Load(x) =>
          ExactRunSplit(e, a[1..], b, rom);
          var r := ExactRun(e, a[1..], rom);
          var y := ExactLoad(e, x, rom);
          assert [y] + (r.0 + ExactRun(r.1, b, rom).0) == [y] + r.0 + ExactRun(r.1, b, rom).0;
        case Store(x, y) => ExactRunSplit(ExactStore(e, x, y), a[1..], b, rom);
        case Show(on) => ExactRunSplit(ExactShow(e, on), a[1..], b, rom);
      }
    }
  }

  lemma {:induction false} StoreThenLoad(f: Fast, e: Exact, a: u16, b: u8, rom: seq<u8>)
    requires f.Valid() && e.Valid() && IsRom(rom)
    ensures var ops := [Store(a, b), Load(a)];
            && FastRun(f, ops, rom).0 == [b]
            && ExactRun(e, ops, rom).0 == [ExactLoad(ExactStore(e, a, b), a, rom)]
  {
    hide FastStore, ExactStore, ExactLoad;
    var ops := [Store(a, b), Load(a)];
    assert ops[1..] == [Load(a)] && ops[1..][1..] == [];
    assert FastLoad(FastStore(f, a, b), a) == b by {
      LoadsStored(f, a, b);
    }
    assert FastRun(FastStore(f, a, b), [Load(a)], rom).0 == [b] + [];
    assert ExactRun(ExactStore(e, a, b), [Load(a)], rom).0 == [ExactLoad(ExactStore(e, a, b), a, rom)] + [];
  }

  lemma LoadsStored(f: Fast, a: u16, b: u8)
    requires f.Valid()
    ensures FastLoad(FastStore(f, a, b), a) == b
  {
  }

  lemma {:induction false} StoreHideLoad(f: Fast, e: Exact, a: u16, b: u8, rom: seq<u8>)
    requires f.Valid() && e.Valid() && IsRom(rom)
    ensures var ops := [Store(a, b), Show(false), Load(a)];
            && FastRun(f, ops, rom).0 == [FastLoad(FastShow(FastStore(f, a, b), false, rom), a)]
            && ExactRun(e, ops, rom).0 == [ExactLoad(ExactShow(ExactStore(e, a, b), false), a, rom)]
  {
    hide FastStore, ExactStore, FastShow, FastLoad, ExactLoad;
    var ops := [Store(a, b), Show(false), Load(a)];
    assert ops[1..] == [Show(false), Load(a)] && ops[1..][1..] == [Load(a)] && ops[1..][1..][1..] == [];
    var f2, e2 := FastShow(FastStore(f, a, b), false, rom), ExactShow(ExactStore(e, a, b), false);
    assert FastRun(f2, [Load(a)], rom).0 == [FastLoad(f2, a)] + [];
    assert ExactRun(e2, [Load(a)], rom).0 == [ExactLoad(e2, a, rom)] + [];
    assert FastRun(FastStore(f, a, b), [Show(false), Load(a)], rom).0 == [FastLoad(f2, a)];
    assert ExactRun(ExactStore(e, a, b), [Show(false), Load(a)], rom).0 == [ExactLoad(e2, a, rom)];
  }

  /** Every store that hits the shown ROM, after any guarded sequence: it shows at once if
      and only if it does not store the ROM's own byte, and after the ROM is hidden if and
      only if it changes the covered RAM, which the copying form then restores. */
  lemma {:induction false} BrokenGuardShows(f: Fast, e: Exact, ops: seq<Op>, a: u16, b: u8, rom: seq<u8>)
    requires f.Valid() && e.Valid() && IsRom(rom) && Same(f, e, rom) && Guarded(f.shown, ops)
    requires FastRun(f, ops, rom).1.shown && InRom(a)
    ensures FastRun(f, ops + [Store(a, b), Load(a)], rom).0 != ExactRun(e, ops + [Store(a, b), Load(a)], rom).0
            <==> b != rom[a - ROM_BASE]
    ensures FastRun(f, ops + [Store(a, b), Show(false), Load(a)], rom).0
            != ExactRun(e, ops + [Store(a, b), Show(false), Load(a)], rom).0
            <==> b != ExactRun(e, ops, rom).1.mem[a]
  {
    hide FastRun, ExactRun, Guarded, FastShow;
    FastRefinesExact(f, e, ops, rom);
    var r, t := FastRun(f, ops, rom), ExactRun(e, ops, rom);
    FastRunSplit(f, ops, [Store(a, b), Load(a)], rom);
    ExactRunSplit(e, ops, [Store(a, b), Load(a)], rom);
    StoreThenLoad(r.1, t.1, a, b, rom);
    FastRunSplit(f, ops, [Store(a, b), Show(false), Load(a)], rom);
    ExactRunSplit(e, ops, [Store(a, b), Show(false), Load(a)], rom);
    StoreHideLoad(r.1, t.1, a, b, rom);
    HiddenAgain(r.1, a, b, rom);
    SameTail(r.0, FastRun(r.1, [Store(a, b), Load(a)], rom).0, ExactRun(t.1, [Store(a, b), Load(a)], rom).0);
    SameTail(r.0, FastRun(r.1, [Store(a, b), Show(false), Load(a)], rom).0,
             ExactRun(t.1, [Store(a, b), Show(false), Load(a)], rom).0);
  }

  lemma HiddenAgain(f: Fast, a: u16, b: u8, rom: seq<u8>)
    requires f.Valid() && IsRom(rom) && f.shown && InRom(a)
    ensures FastLoad(FastShow(FastStore(f, a, b), false, rom), a) == f.extra[a - ROM_BASE]
  {
  }

  /** Without the guard the refinement fails: a store into the shown ROM is read back by the
      copying form but not by the checking form. */
  lemma {:induction false} UnguardedStoreShows(rom: seq<u8>)
    requires IsRom(rom)
    ensures exists f: Fast, e: Exact, ops: seq<Op> ::
              && f.Valid() && e.Valid() && !f.shown && Same(f, e, rom)
              && FastRun(f, ops, rom).0 != ExactRun(e, ops, rom).0
  {
    var mem := seq(ARAM_SIZE + SPILL, _ => 0);
    var f, e := Fast(mem, seq(ROM_SIZE, _ => 0), false), Exact(mem, false);
    var b: u8 := if rom[0] == 0 then 1 else 0;
    var ops := [Show(true), Store(ROM_BASE, b), Load(ROM_BASE)];
    var f1, e1 := FastShow(f, true, rom), ExactShow(e, true);
    var f2, e2 := FastStore(f1, ROM_BASE, b), ExactStore(e1, ROM_BASE, b);
    assert ops[1..] == [Store(ROM_BASE, b), Load(ROM_BASE)] && ops[1..][1..] == [Load(ROM_BASE)] && ops[1..][1..][1..] == [];
    assert FastRun(f2, [Load(ROM_BASE)], rom).0 == [FastLoad(f2, ROM_BASE)] + [];
    assert ExactRun(e2, [Load(ROM_BASE)], rom).0 == [ExactLoad(e2, ROM_BASE, rom)] + [];
    assert FastRun(f, ops, rom).0 == [b] && ExactRun(e, ops, rom).0 == [rom[0]];
  }
}
