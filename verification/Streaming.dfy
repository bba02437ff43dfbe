/** The streaming BRR decoder, which decodes four samples whenever a voice needs them,
    against the block decoder of module Brr (src/dsp.c, `brr_sample4` and `decode_brr`). */
module Streaming {
  import opened Bits
  import opened Aram
  import opened Brr
  import opened Envelope
  import opened Voices
  import opened VoiceRuns

  /** A voice about to decode: it has just read its block header, and `next` is where the
      directory says the sample continues after an end block. */
  ghost function Loaded(v: VState, mem: seq<u8>, next: u16): (r: VState)
    requires Inv(v) && IsMemory(mem)
    ensures Inv(r) && r.brrOff == v.brrOff
  {
    v.(brrHdr := mem[v.brrAddr], nextBrrAddr := next)
  }

  /** One group for every entry of nexts. */
  ghost function GroupRun(v: VState, mem: seq<u8>, nexts: seq<u16>): (r: VState)
    requires Inv(v) && IsMemory(mem) && v.brrOff != 0
    ensures Inv(r) && r.brrOff != 0
    decreases |nexts|
  {
    if nexts == [] then v else GroupRun(NextGroup(Loaded(v, mem, nexts[0]), mem), mem, nexts[1..])
  }

  ghost function GroupStream(v: VState, mem: seq<u8>, nexts: seq<u16>): (r: seq<s16>)
    requires Inv(v) && IsMemory(mem) && v.brrOff != 0
    ensures |r| == 4 * |nexts|
    decreases |nexts|
  {
    if nexts == [] then []
    else
      var w := Loaded(v, mem, nexts[0]);
      GroupOut(w, mem) + GroupStream(NextGroup(w, mem), mem, nexts[1..])
  }

  lemma {:induction false} GroupRunSplit(v: VState, mem: seq<u8>, nexts: seq<u16>, k: nat)
    requires Inv(v) && IsMemory(mem) && v.brrOff != 0 && k <= |nexts|
    ensures var w := GroupRun(v, mem, nexts[..k]);
            && GroupRun(v, mem, nexts) == GroupRun(w, mem, nexts[k..])
            && GroupStream(v, mem, nexts) == GroupStream(v, mem, nexts[..k]) + GroupStream(w, mem, nexts[k..])
    decreases k
  {
    hide NextGroup, GroupOut, Loaded;
    if k > 0 {
      GroupRunSplit(NextGroup(Loaded(v, mem, nexts[0]), mem), mem, nexts[1..], k - 1);
      assert nexts[..k][1..] == nexts[1..][..k - 1] && nexts[1..][k - 1..] == nexts[k..];
    } else {
      assert nexts[0..] == nexts;
    }
  }

  // ---- one block ----

  /** A group takes its four inputs from the block, as long as the block does not run off
      the end of memory. */
  lemma GroupInputsAreBlockInputs(mem: seq<u8>, a: u16, g: nat)
    requires IsMemory(mem) && g < 4 && a + 8 < ARAM_SIZE
    ensures GroupInputs(mem[a], mem[a + 1 + 2 * g], mem[a + 2 + 2 * g]) == BlockInputs(mem, a)[4 * g..4 * g + 4]
  {
    hide Input, BlockInputs;
    var ins := BlockInputs(mem, a);
    BlockInputAt(mem, a, 2 * g);
    BlockInputAt(mem, a, 2 * g + 1);
    assert ins[4 * g..4 * g + 4] == [ins[4 * g], ins[4 * g + 1], ins[4 * g + 2], ins[4 * g + 3]];
  }

  lemma BlockInputAt(mem: seq<u8>, a: u16, k: nat)
    requires IsMemory(mem) && k < 8 && a + 8 < ARAM_SIZE
    ensures BlockInputs(mem, a)[2 * k] == Input(mem[a], mem[a + 1 + k], false)
    ensures BlockInputs(mem, a)[2 * k + 1] == Input(mem[a], mem[a + 1 + k], true)
  {
    hide Input;
    assert 2 * k / 2 == k && (2 * k + 1) / 2 == k;
  }

  /** Where the block after the one at a starts. */
  ghost function Following(mem: seq<u8>, a: u16, next: u16): u16
    requires IsMemory(mem)
  {
    if mem[a] % 2 == 1 then next else (a as int + 9) % 0x1_0000
  }

  /** One group: its samples, the history it leaves, and where the voice stands. */
  lemma OneGroup(v: VState, mem: seq<u8>, next: u16, g: nat)
    requires Inv(v) && IsMemory(mem) && g < 4 && v.brrOff == 1 + 2 * g && v.brrAddr + 8 < ARAM_SIZE
    ensures var w := Loaded(v, mem, next);
            var out := GroupOut(w, mem);
            var r := NextGroup(w, mem);
            && out == Clamped(Ideal(FilterOf(mem[v.brrAddr]), BlockInputs(mem, v.brrAddr)[4 * g..4 * g + 4],
                                    History(v).0, History(v).1))
            && History(r) == (out[2], out[3])
            && r.brrOff == (if g == 3 then 1 else 3 + 2 * g)
            && r.brrAddr == (if g == 3 then Following(mem, v.brrAddr, next) else v.brrAddr)
  {
    hide BlockInputs, GroupInputs, Ideal, Clamped, GroupOut, Window;
    var w := Loaded(v, mem, next);
    GroupInputsAreBlockInputs(mem, v.brrAddr, g);
    GroupOutIs(w, mem);
    assert History(w) == History(v);
    GroupEntersWindow(w, mem);
    GroupEntersWindow(NextGroup(w, mem), mem);
    TailOfWindow(Window(w), GroupOut(w, mem));
  }

  lemma GroupOutIs(v: VState, mem: seq<u8>)
    requires Inv(v) && IsMemory(mem) && v.brrOff != 0
    ensures var a := v.brrAddr + v.brrOff;
            GroupOut(v, mem)
            == Clamped(Ideal(FilterOf(v.brrHdr), GroupInputs(v.brrHdr, mem[a], mem[a + 1]), History(v).0, History(v).1))
  {
    hide GroupInputs, Ideal, Clamped, History;
  }

  lemma TailOfWindow(w: seq<s16>, g: seq<s16>)
    requires |w| == RING && |g| == 4
    ensures (w[4..] + g)[10] == g[2] && (w[4..] + g)[11] == g[3]
  {
  }

  /** The groups left in a block decode what the grouped decoder makes of its remaining
      inputs, and lead to the next block. */
  lemma {:induction false} RestOfBlock(v: VState, mem: seq<u8>, nexts: seq<u16>, g: nat)
    requires Inv(v) && IsMemory(mem) && g < 4 && v.brrOff == 1 + 2 * g && v.brrAddr + 8 < ARAM_SIZE
    requires |nexts| == 4 - g
    ensures var out := Grouped(FilterOf(mem[v.brrAddr]), BlockInputs(mem, v.brrAddr)[4 * g..], History(v).0, History(v).1);
            var r := GroupRun(v, mem, nexts);
            && GroupStream(v, mem, nexts) == out
            && r.brrOff == 1 && r.brrAddr == Following(mem, v.brrAddr, nexts[3 - g])
            && History(r) == (out[|out| - 2], out[|out| - 1])
    decreases 4 - g
  {
    hide NextGroup, GroupOut, BlockInputs, Loaded, Following, History, Clamped, Ideal, Grouped, GroupRun, GroupStream, Inv;
    OneGroup(v, mem, nexts[0], g);
    var w := Loaded(v, mem, nexts[0]);
    var r, out := NextGroup(w, mem), GroupOut(w, mem);
    var ins := BlockInputs(mem, v.brrAddr)[4 * g..];
    var f, h := FilterOf(mem[v.brrAddr]), History(v);
    assert BlockInputs(mem, v.brrAddr)[4 * g..4 * g + 4] == ins[..4];
    assert ins[4..] == BlockInputs(mem, v.brrAddr)[4 * (g + 1)..];
    GroupedUnfolds(f, ins, h.0, h.1);
    GroupRunUnfolds(v, mem, nexts);
    if g < 3 {
      RestOfBlock(r, mem, nexts[1..], g + 1);
      var rest := Grouped(f, ins[4..], out[2], out[3]);
      assert |rest| >= 2 && out + rest == Grouped(f, ins, h.0, h.1);
    } else {
      assert ins[4..] == [] && nexts[1..] == [];
      assert Grouped(f, ins[4..], out[2], out[3]) == [] && out + [] == out;
      NoMoreGroups(r, mem);
    }
  }

  lemma {:induction false} GroupRunUnfolds(v: VState, mem: seq<u8>, nexts: seq<u16>)
    requires Inv(v) && IsMemory(mem) && v.brrOff != 0 && nexts != []
    ensures var w := Loaded(v, mem, nexts[0]);
            && GroupRun(v, mem, nexts) == GroupRun(NextGroup(w, mem), mem, nexts[1..])
            && GroupStream(v, mem, nexts) == GroupOut(w, mem) + GroupStream(NextGroup(w, mem), mem, nexts[1..])
  {
    hide Inv, NextGroup, GroupOut, Loaded;
  }

  lemma {:induction false} NoMoreGroups(v: VState, mem: seq<u8>)
    requires Inv(v) && IsMemory(mem) && v.brrOff != 0
    ensures GroupRun(v, mem, []) == v && GroupStream(v, mem, []) == []
  {
  }

  // ---- any number of blocks ----

  /** The addresses of the n blocks decoded from a on; the directory entry that counts for
      a block is the one in force at its last group. */
  ghost function BlockAddrs(mem: seq<u8>, a: u16, nexts: seq<u16>, n: nat): (r: seq<u16>)
    requires IsMemory(mem) && |nexts| == 4 * n
    ensures |r| == n
    decreases n
  {
    if n == 0 then [] else [a] + BlockAddrs(mem, Following(mem, a, nexts[3]), nexts[4..], n - 1)
  }

  ghost predicate InsideMemory(addrs: seq<u16>)
  {
    forall k :: 0 <= k < |addrs| ==> addrs[k] + 8 < ARAM_SIZE
  }

  lemma {:induction false} StreamIsGroupList(v: VState, mem: seq<u8>, nexts: seq<u16>, n: nat)
    requires Inv(v) && IsMemory(mem) && v.brrOff == 1 && |nexts| == 4 * n
    requires InsideMemory(BlockAddrs(mem, v.brrAddr, nexts, n))
    ensures GroupStream(v, mem, nexts)
            == GroupList(mem, BlockAddrs(mem, v.brrAddr, nexts, n), History(v).0, History(v).1)
    decreases n
  {
    hide GroupRun, GroupStream, BlockInputs, History, Grouped, Inv, Following, BlockAddrs, GroupList, InsideMemory, Ideal;
    if n > 0 {
      var h := History(v);
      BlockAddrsUnfolds(mem, v.brrAddr, nexts, n);
      RestOfBlock(v, mem, nexts[..4], 0);
      GroupRunSplit(v, mem, nexts, 4);
      var w := GroupRun(v, mem, nexts[..4]);
      assert BlockInputs(mem, v.brrAddr)[0..] == BlockInputs(mem, v.brrAddr);
      GroupListUnfolds(mem, v.brrAddr, BlockAddrs(mem, w.brrAddr, nexts[4..], n - 1), h.0, h.1);
      StreamIsGroupList(w, mem, nexts[4..], n - 1);
    } else {
      NoBlocks(v, mem, nexts);
    }
  }

  lemma {:induction false} NoBlocks(v: VState, mem: seq<u8>, nexts: seq<u16>)
    requires Inv(v) && IsMemory(mem) && v.brrOff != 0 && nexts == []
    ensures GroupStream(v, mem, nexts) == GroupList(mem, BlockAddrs(mem, v.brrAddr, nexts, 0), History(v).0, History(v).1)
  {
  }

  lemma {:induction false} BlockAddrsUnfolds(mem: seq<u8>, a: u16, nexts: seq<u16>, n: nat)
    requires IsMemory(mem) && |nexts| == 4 * n && n > 0
    ensures var rest := BlockAddrs(mem, Following(mem, a, nexts[3]), nexts[4..], n - 1);
            && BlockAddrs(mem, a, nexts, n) == [a] + rest
            && (InsideMemory(BlockAddrs(mem, a, nexts, n)) ==> a + 8 < ARAM_SIZE && InsideMemory(rest))
  {
    hide Following;
    var rest := BlockAddrs(mem, Following(mem, a, nexts[3]), nexts[4..], n - 1);
    var all := BlockAddrs(mem, a, nexts, n);
    assert all[0] == a;
    assert forall k :: 0 <= k < |rest| ==> rest[k] == all[k + 1];
  }

  lemma {:induction false} GroupListUnfolds(mem: seq<u8>, a: u16, rest: seq<u16>, older: s16, prev: s16)
    requires IsMemory(mem)
    ensures var b := Grouped(FilterOf(mem[a]), BlockInputs(mem, a), older, prev);
            GroupList(mem, [a] + rest, older, prev) == b + GroupList(mem, rest, b[14], b[15])
  {
    hide Grouped, BlockInputs;
    assert ([a] + rest)[1..] == rest;
  }

  /** The streaming decoder refines the block decoder: started on a block boundary with any
      history, four groups a block for any number of blocks, with memory unchanged and no
      block running past $ffff. Each decoder yields the ideal stream if and only if the
      ideal stream fits 16 bits, and then they agree sample for sample. */
  lemma {:induction false} StreamingRefinesBlocks(v: VState, mem: seq<u8>, nexts: seq<u16>, n: nat)
    requires Inv(v) && IsMemory(mem) && v.brrOff == 1 && |nexts| == 4 * n
    requires InsideMemory(BlockAddrs(mem, v.brrAddr, nexts, n))
    ensures var addrs := BlockAddrs(mem, v.brrAddr, nexts, n);
            var ideal := IdealList(mem, addrs, History(v).0, History(v).1);
            && |ideal| == 16 * n
            && (GroupStream(v, mem, nexts) == ideal <==> InRange(ideal))
            && (BlockList(mem, addrs, History(v).0, History(v).1) == ideal <==> InRange(ideal))
            && (InRange(ideal) ==> GroupStream(v, mem, nexts) == BlockList(mem, addrs, History(v).0, History(v).1))
  {
    StreamIsGroupList(v, mem, nexts, n);
    ListsAreIdeal(mem, BlockAddrs(mem, v.brrAddr, nexts, n), History(v).0, History(v).1);
  }

  /** Where the ideal stream first leaves 16 bits, if it does, the streaming decoder holds it
      at the rail, the block decoder wraps it, and they part unless the two are the same. */
  lemma {:induction false} StreamingPartsFromBlocks(v: VState, mem: seq<u8>, nexts: seq<u16>, n: nat, k: nat)
    requires Inv(v) && IsMemory(mem) && v.brrOff == 1 && |nexts| == 4 * n
    requires InsideMemory(BlockAddrs(mem, v.brrAddr, nexts, n))
    requires FirstOut(IdealList(mem, BlockAddrs(mem, v.brrAddr, nexts, n), History(v).0, History(v).1), k)
    ensures var addrs := BlockAddrs(mem, v.brrAddr, nexts, n);
            var ideal := IdealList(mem, addrs, History(v).0, History(v).1);
            var heard, blocks := GroupStream(v, mem, nexts), BlockList(mem, addrs, History(v).0, History(v).1);
            && heard[..k] == blocks[..k] == ideal[..k]
            && heard[k] == Clamp16(ideal[k]) && blocks[k] == S16(ideal[k])
            && (heard[k] != blocks[k] <==> !LooksClamped(ideal[k]))
  {
    hide GroupStream, GroupList, BlockList, IdealList, BlockAddrs, Inv, FirstOut, LooksClamped, S16, Clamp16, InsideMemory;
    StreamIsGroupList(v, mem, nexts, n);
    ListsPart(mem, BlockAddrs(mem, v.brrAddr, nexts, n), History(v).0, History(v).1, k);
  }

  // ---- a playing voice runs the streaming decoder ----

  /** The directory words in force in the decoding samples of a run. */
  ghost function Nexts(v: VState, ins: seq<VIn>): seq<u16>
    requires Inv(v) && AllValid(ins)
    decreases |ins|
  {
    if ins == [] then []
    else (if DecodesIn(v, ins[0]) then [DirectoryWord(v, ins[0])] else []) + Nexts(VoiceStep(v, ins[0]), ins[1..])
  }

  /** The fields the decoder reads and writes. */
  ghost predicate SameDecoder(v: VState, w: VState)
  {
    v.brrAddr == w.brrAddr && v.brrOff == w.brrOff && v.buf == w.buf && v.bufPos == w.bufPos
  }

  lemma SameDecoderSameGroup(v: VState, w: VState, mem: seq<u8>)
    requires Inv(v) && Inv(w) && IsMemory(mem) && v.brrOff != 0 && SameDecoder(v, w)
    requires v.brrHdr == w.brrHdr && v.nextBrrAddr == w.nextBrrAddr
    ensures GroupOut(v, mem) == GroupOut(w, mem)
    ensures SameDecoder(NextGroup(v, mem), NextGroup(w, mem))
  {
    hide Clamped, Ideal, GroupInputs;
  }

  lemma {:induction false} SameDecoderSameStream(v: VState, w: VState, mem: seq<u8>, nexts: seq<u16>)
    requires Inv(v) && Inv(w) && IsMemory(mem) && v.brrOff != 0 && SameDecoder(v, w)
    ensures GroupStream(v, mem, nexts) == GroupStream(w, mem, nexts)
    ensures SameDecoder(GroupRun(v, mem, nexts), GroupRun(w, mem, nexts))
    decreases |nexts|
  {
    if nexts != [] {
      SameDecoderSameGroup(Loaded(v, mem, nexts[0]), Loaded(w, mem, nexts[0]), mem);
      hide NextGroup, GroupOut, Loaded, Inv;
      SameDecoderSameStream(NextGroup(Loaded(v, mem, nexts[0]), mem), NextGroup(Loaded(w, mem, nexts[0]), mem), mem, nexts[1..]);
    }
  }

  lemma StepStreams(v: VState, i: VIn)
    requires Inv(v) && i.Valid() && v.attackDelay != 5 && v.brrOff != 0
    ensures var w := Loaded(v, i.mem, DirectoryWord(v, i));
            if DecodesIn(v, i) then Emitted(v, i) == GroupOut(w, i.mem) && SameDecoder(VoiceStep(v, i), NextGroup(w, i.mem))
            else Emitted(v, i) == [] && SameDecoder(VoiceStep(v, i), v)
  {
    BeginFrame(v, i);
    hide Begin, DirectoryWord, GroupOut, NextGroup, Inv;
    if DecodesIn(v, i) {
      SameDecoderSameGroup(Begin(v, i), Loaded(v, i.mem, DirectoryWord(v, i)), i.mem);
    }
  }

  /** The nine bytes of the block at a. */
  ghost predicate SameBlock(m: seq<u8>, mem: seq<u8>, a: u16)
    requires IsMemory(m) && IsMemory(mem)
  {
    m[a..a + BLOCK_SIZE] == mem[a..a + BLOCK_SIZE]
  }

  /** In every sample that decodes a group, the block the voice stands in is as it is in mem.
      The rest of the memory, and that block at other times, may hold anything. */
  ghost predicate BlocksKept(v: VState, ins: seq<VIn>, mem: seq<u8>)
    requires Inv(v) && AllValid(ins) && IsMemory(mem)
    decreases |ins|
  {
    ins != [] ==>
      && (DecodesIn(v, ins[0]) ==> SameBlock(ins[0].mem, mem, v.brrAddr))
      && BlocksKept(VoiceStep(v, ins[0]), ins[1..], mem)
  }

  /** A group depends on its block alone. */
  lemma SameBlockSameGroup(v: VState, m: seq<u8>, mem: seq<u8>, next: u16)
    requires Inv(v) && IsMemory(m) && IsMemory(mem) && v.brrOff != 0 && SameBlock(m, mem, v.brrAddr)
    ensures Loaded(v, m, next) == Loaded(v, mem, next)
    ensures var w := Loaded(v, mem, next); GroupOut(w, m) == GroupOut(w, mem) && NextGroup(w, m) == NextGroup(w, mem)
  {
    var a := v.brrAddr;
    assert m[a..a + BLOCK_SIZE][0] == mem[a..a + BLOCK_SIZE][0];
    assert m[a..a + BLOCK_SIZE][v.brrOff] == mem[a..a + BLOCK_SIZE][v.brrOff];
    assert m[a..a + BLOCK_SIZE][v.brrOff + 1] == mem[a..a + BLOCK_SIZE][v.brrOff + 1];
    hide Clamped, Ideal, GroupInputs;
  }

  /** Whatever the registers do, a voice that is not restarted decodes the stream of its
      decoder, one group in each sample that needs one: the theorem above is about what is
      heard. */
  lemma {:induction false} VoiceStreams(v: VState, ins: seq<VIn>, mem: seq<u8>)
    requires Inv(v) && AllValid(ins) && NeverRestarts(v, ins) && v.brrOff != 0
    requires IsMemory(mem) && BlocksKept(v, ins, mem)
    ensures Stream(v, ins) == GroupStream(v, mem, Nexts(v, ins))
    ensures SameDecoder(VRun(v, ins), GroupRun(v, mem, Nexts(v, ins)))
    decreases |ins|
  {
    hide VoiceStep, DecodesIn, Emitted, NextGroup, GroupOut, Loaded, DirectoryWord, Inv, SameBlock;
    if ins != [] {
      var i, r := ins[0], VoiceStep(v, ins[0]);
      StepStreams(v, i);
      var rest := Nexts(r, ins[1..]);
      VoiceStreams(r, ins[1..], mem);
      if DecodesIn(v, i) {
        var d := DirectoryWord(v, i);
        SameBlockSameGroup(v, i.mem, mem, d);
        var w := NextGroup(Loaded(v, mem, d), mem);
        assert Nexts(v, ins)[1..] == rest && Nexts(v, ins)[0] == d;
        SameDecoderSameStream(r, w, mem, rest);
      } else {
        assert Nexts(v, ins) == rest;
        SameDecoderSameStream(r, v, mem, rest);
      }
    }
  }

  // ---- what is heard of a sample ----

  /** Filled up to whole blocks; a directory word counts only at the end of a block. */
  ghost function Padded(nexts: seq<u16>): (r: seq<u16>)
    ensures |r| % 4 == 0 && |nexts| <= |r| && r[..|nexts|] == nexts
  {
    nexts + [0, 0, 0, 0][..(4 - |nexts| % 4) % 4]
  }

  /** The blocks of which a voice standing at the start of the one at a decodes a part. */
  ghost function BlocksFrom(mem: seq<u8>, a: u16, nexts: seq<u16>): seq<u16>
    requires IsMemory(mem)
  {
    BlockAddrs(mem, a, Padded(nexts), |Padded(nexts)| / 4)
  }

  lemma {:induction false} PartOfStream(v: VState, mem: seq<u8>, nexts: seq<u16>)
    requires Inv(v) && IsMemory(mem) && v.brrOff != 0
    ensures 4 * |nexts| <= |GroupStream(v, mem, Padded(nexts))|
    ensures GroupStream(v, mem, nexts) == GroupStream(v, mem, Padded(nexts))[..4 * |nexts|]
  {
    hide Inv, Padded;
    GroupRunSplit(v, mem, Padded(nexts), |nexts|);
    hide GroupStream, GroupRun;
  }

  /** Whatever its registers do, a voice at the start of a block that is not restarted, over
      blocks that are as in mem when it decodes them, decodes what the grouped decoder makes of the blocks its directory
      leads it to, and what the block decoder makes of them as long as the ideal stream fits. */
  lemma {:induction false} VoiceDecodesBlocks(v: VState, ins: seq<VIn>, mem: seq<u8>)
    requires Inv(v) && AllValid(ins) && NeverRestarts(v, ins) && v.brrOff == 1
    requires IsMemory(mem) && BlocksKept(v, ins, mem)
    requires InsideMemory(BlocksFrom(mem, v.brrAddr, Nexts(v, ins)))
    ensures var addrs, h, heard := BlocksFrom(mem, v.brrAddr, Nexts(v, ins)), History(v), Stream(v, ins);
            && |heard| <= 16 * |addrs|
            && heard == GroupList(mem, addrs, h.0, h.1)[..|heard|]
            && (InRange(IdealList(mem, addrs, h.0, h.1)) ==> heard == BlockList(mem, addrs, h.0, h.1)[..|heard|])
  {
    hide Inv, GroupStream, GroupList, BlockList, IdealList, BlockAddrs, Stream, Nexts, NeverRestarts, InsideMemory, InRange, Padded;
    hide BlocksKept;
    var nexts := Nexts(v, ins);
    VoiceStreams(v, ins, mem);
    PartOfStream(v, mem, nexts);
    StreamIsGroupList(v, mem, Padded(nexts), |Padded(nexts)| / 4);
    ListsAreIdeal(mem, BlocksFrom(mem, v.brrAddr, nexts), History(v).0, History(v).1);
  }

  /** The first sample after a key-on goes to the block that the directory gives for the
      start of the sound, keeps the ring and decodes nothing. */
  lemma KeyOnStep(v: VState, i: VIn)
    requires Inv(v) && i.Valid() && v.attackDelay == 5
    ensures var w := VoiceStep(v, i);
            && w.brrOff == 1 && w.brrAddr == DirectoryWord(v, i) && w.buf == v.buf && w.bufPos == 0
            && !DecodesIn(v, i) && History(w) == (v.buf[10], v.buf[11])
  {
    hide EnvStep, DirectoryWord, GroupOut, NextGroup;
    var f := FetchFrame(v, i);
    hide Fetch;
  }

  /** From a key-on: what the voice decodes is the sound that starts at the directory's start
      entry and goes on at its loop entry, block for block. */
  lemma {:induction false} KeyOnDecodesBlocks(v: VState, ins: seq<VIn>, mem: seq<u8>)
    requires Inv(v) && AllValid(ins) && ins != [] && v.attackDelay == 5 && IsMemory(mem)
    requires NeverRestarts(VoiceStep(v, ins[0]), ins[1..]) && BlocksKept(VoiceStep(v, ins[0]), ins[1..], mem)
    requires InsideMemory(BlocksFrom(mem, DirectoryWord(v, ins[0]), Nexts(VoiceStep(v, ins[0]), ins[1..])))
    ensures var addrs := BlocksFrom(mem, DirectoryWord(v, ins[0]), Nexts(VoiceStep(v, ins[0]), ins[1..]));
            var heard := Stream(v, ins);
            && |heard| <= 16 * |addrs|
            && heard == GroupList(mem, addrs, v.buf[10], v.buf[11])[..|heard|]
            && (InRange(IdealList(mem, addrs, v.buf[10], v.buf[11])) ==>
                  heard == BlockList(mem, addrs, v.buf[10], v.buf[11])[..|heard|])
  {
    KeyOnStep(v, ins[0]);
    StreamStarts(v, ins);
    hide VoiceStep, DecodesIn, Inv, Nexts, Stream, NeverRestarts, GroupList, BlockList, IdealList, InsideMemory, BlocksFrom;
    hide DirectoryWord, InRange, Emitted, BlocksKept;
    VoiceDecodesBlocks(VoiceStep(v, ins[0]), ins[1..], mem);
  }

  lemma {:induction false} StreamStarts(v: VState, ins: seq<VIn>)
    requires Inv(v) && AllValid(ins) && ins != [] && !DecodesIn(v, ins[0])
    ensures Stream(v, ins) == Stream(VoiceStep(v, ins[0]), ins[1..])
  {
    hide VoiceStep, DecodesIn, Inv;
    assert [] + Stream(VoiceStep(v, ins[0]), ins[1..]) == Stream(VoiceStep(v, ins[0]), ins[1..]);
  }

  /** The same, said sample by sample. */
  lemma {:induction false} NeverRestartsFrom(v: VState, ins: seq<VIn>, k: nat)
    requires Inv(v) && AllValid(ins) && k <= |ins|
    requires forall j :: k <= j < |ins| ==> VRun(v, ins[..j]).attackDelay != 5
    ensures NeverRestarts(VRun(v, ins[..k]), ins[k..])
    decreases |ins| - k
  {
    hide VoiceStep, Inv, VRun;
    if k < |ins| {
      VRunSnoc(v, ins, k);
      NeverRestartsFrom(v, ins, k + 1);
      assert ins[k..][0] == ins[k] && ins[k..][1..] == ins[k + 1..];
    }
  }

  lemma {:induction false} BlocksKeptFrom(v: VState, ins: seq<VIn>, mem: seq<u8>, k: nat)
    requires Inv(v) && AllValid(ins) && IsMemory(mem) && k <= |ins|
    requires forall j :: k <= j < |ins| ==>
               DecodesIn(VRun(v, ins[..j]), ins[j]) ==> SameBlock(ins[j].mem, mem, VRun(v, ins[..j]).brrAddr)
    ensures BlocksKept(VRun(v, ins[..k]), ins[k..], mem)
    decreases |ins| - k
  {
    hide VoiceStep, Inv, VRun, DecodesIn, SameBlock;
    if k < |ins| {
      VRunSnoc(v, ins, k);
      BlocksKeptFrom(v, ins, mem, k + 1);
      assert ins[k..][0] == ins[k] && ins[k..][1..] == ins[k + 1..];
    }
  }
}
