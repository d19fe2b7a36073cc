/** src/base/sha1.cpp and HmacSha1 of src/base/helpmethods.cpp: incremental hashing with a rolling
    schedule of sixteen words, proved to compute Sha1Spec. */
module Sha1Transforms {
  import opened Sha1Spec

  // ---- one block ---------------------------------------------------------------------------------

  /** Four octets of the workspace as the little-endian host loads them. */
  function LittleEndianWord(a: bv8, b: bv8, c: bv8, d: bv8): word {
    (a as word) | (b as word << 8) | (c as word << 16) | (d as word << 24)
  }

  /** blk0 on a little-endian host. */
  function SwapBytes(l: word): word {
    (((l << 24) | (l >> 8)) & 0xFF00FF00) | (((l << 8) | (l >> 24)) & 0x00FF00FF)
  }

  lemma SwapLoads(a: bv8, b: bv8, c: bv8, d: bv8)
    ensures SwapBytes(LittleEndianWord(a, b, c, d)) == BigEndianWord(a, b, c, d)
  {
  }

  /** The functions of the macros R0 to R4, which FIPS 180-4 writes differently. */
  function MacroF(t: nat, w: word, x: word, y: word): word {
    if t < 20 then (w & (x ^ y)) ^ y
    else if t < 40 then w ^ x ^ y
    else if t < 60 then ((w | x) & y) | (w & x)
    else w ^ x ^ y
  }

  lemma ChForm(w: word, x: word, y: word)
    ensures (w & (x ^ y)) ^ y == Ch(w, x, y)
  {
  }

  lemma MajForm(w: word, x: word, y: word)
    ensures ((w | x) & y) | (w & x) == Maj(w, x, y)
  {
  }

  lemma MacroFIsF(t: nat, w: word, x: word, y: word)
    ensures MacroF(t, w, x, y) == F(t, w, x, y)
  {
    ChForm(w, x, y);
    MajForm(w, x, y);
  }

  /** The word of round t is the one FIPS 180-4 computes from four earlier ones. */
  predicate ExpandsAt(schedule: seq<word>, t: nat)
    requires 16 <= t < |schedule|
  {
    schedule[t] == Rotl1(schedule[t - 3] ^ schedule[t - 8] ^ schedule[t - 14] ^ schedule[t - 16])
  }

  ghost predicate IsSchedule(schedule: seq<word>, words: seq<word>) {
    && |words| == 16 && |schedule| == 80 && schedule[..16] == words
    && (forall t {:trigger ExpandsAt(schedule, t)} :: 16 <= t < 80 ==> ExpandsAt(schedule, t))
  }

  predicate StepAt(trace: seq<Vars>, schedule: seq<word>, t: nat)
    requires t < |schedule| && |trace| == |schedule| + 1
  {
    trace[t + 1] == Round(trace[t], t, schedule[t])
  }

  /** The working variables before every round. */
  ghost predicate IsTrace(trace: seq<Vars>, schedule: seq<word>) {
    && |schedule| == 80 && |trace| == 81
    && (forall t {:trigger StepAt(trace, schedule, t)} :: 0 <= t < 80 ==> StepAt(trace, schedule, t))
  }

  /** The schedule and the working variables of Sha1Spec as sequences. */
  lemma TraceOf(h: Vars, words: seq<word>) returns (schedule: seq<word>, trace: seq<Vars>)
    requires |words| == 16
    ensures IsSchedule(schedule, words) && IsTrace(trace, schedule)
    ensures trace[0] == h && Sum(h, trace[80]) == Compress(h, words)
  {
    schedule := seq(80, t requires 0 <= t < 80 => W(words, t));
    trace := seq(81, t requires 0 <= t < 81 => Rounds(h, words, t));
    forall t | 0 <= t < 80 ensures StepAt(trace, schedule, t) {
      RoundsStep(h, words, t);
    }
  }

  lemma RoundsStep(h: Vars, words: seq<word>, t: nat)
    requires |words| == 16
    ensures Rounds(h, words, t + 1) == Round(Rounds(h, words, t), t, W(words, t))
  {
  }

  /** The sixteen words of the workspace before round t: the last sixteen words of the schedule,
      and the words that have not been swapped yet. */
  ghost predicate Window(block: seq<word>, schedule: seq<word>, t: nat) {
    && |block| == 16 && |schedule| == 80
    && (forall j {:trigger block[j]} :: t <= j < 16 ==> SwapBytes(block[j]) == schedule[j])
    && (forall i {:trigger schedule[i]} :: 0 <= i < t && i < 80 && t <= i + 16 ==> block[i % 16] == schedule[i])
  }

  /** blk0 and blk: the word of round i, written over the word of round i - 16. */
  method Blk(block: array<word>, ghost words: seq<word>, ghost schedule: seq<word>, i: nat) returns (w: word)
    requires block.Length == 16 && i < 80 && IsSchedule(schedule, words) && Window(block[..], schedule, i)
    modifies block
    ensures w == schedule[i] && Window(block[..], schedule, i + 1)
  {
    if i < 16 {
      block[i] := SwapBytes(block[i]);
      w := block[i];
    } else {
      assert ExpandsAt(schedule, i);
      w := Rotl1(block[(i + 13) % 16] ^ block[(i + 8) % 16] ^ block[(i + 2) % 16] ^ block[i % 16]);
      block[i % 16] := w;
    }
  }

  /** The macros add in another order. */
  lemma AddOrder(z: word, f: word, b: word, k: word, r: word)
    ensures z + f + b + k + r == Total(r, f, z, k, b)
  {
  }

  /** A macro leaves three variables where they are. */
  lemma RoundForm(v: word, w: word, x: word, y: word, z: word, t: nat, b: word, f: word, k: word, r: word)
    requires f == MacroF(t, w, x, y) && k == K(t) && r == Rotl5(v)
    ensures Round(Vars(v, w, x, y, z), t, b) == Vars(Total(r, f, z, k, b), v, Rotl30(w), x, y)
  {
    MacroFIsF(t, w, x, y);
  }

  /** One macro R(v, w, x, y, z, i): only z and w change. */
  method R(block: array<word>, ghost words: seq<word>, ghost schedule: seq<word>, ghost trace: seq<Vars>,
           v: word, w: word, x: word, y: word, z: word, i: nat)
    returns (z': word, w': word)
    requires block.Length == 16 && i < 80 && IsSchedule(schedule, words) && IsTrace(trace, schedule)
    requires Window(block[..], schedule, i) && Vars(v, w, x, y, z) == trace[i]
    modifies block
    ensures Window(block[..], schedule, i + 1)
    ensures Vars(z', v, w', x, y) == trace[i + 1]
  {
    var b := Blk(block, words, schedule, i);
    var f, k := MacroF(i, w, x, y), K(i);
    var r := Rotl5(v);
    z' := z + f + b + k + r;
    w' := Rotl30(w);
    assert StepAt(trace, schedule, i);
    AddOrder(z, f, b, k, r);
    RoundForm(v, w, x, y, z, i, b, f, k, r);
  }

  ghost function StateOf(state: array<word>): Vars
    requires state.Length == 5
    reads state
  {
    Vars(state[0], state[1], state[2], state[3], state[4])
  }

  /** The rounds of SHA1Transform: instead of shifting five variables in every round, the macros rename them. */
  method EightyRounds(start: Vars, block: array<word>,
                      ghost words: seq<word>, ghost schedule: seq<word>, ghost trace: seq<Vars>)
    returns (a: word, b: word, c: word, d: word, e: word)
    requires block.Length == 16 && IsSchedule(schedule, words) && IsTrace(trace, schedule)
    requires Window(block[..], schedule, 0) && start == trace[0]
    modifies block
    ensures Vars(a, b, c, d, e) == trace[80]
  {
    a, b, c, d, e := start.a, start.b, start.c, start.d, start.e;
    var t := 0;
    for k := 0 to 16
      invariant t == 5 * k && Window(block[..], schedule, t) && Vars(a, b, c, d, e) == trace[t]
    {
      e, b := R(block, words, schedule, trace, a, b, c, d, e, t);
      d, a := R(block, words, schedule, trace, e, a, b, c, d, t + 1);
      c, e := R(block, words, schedule, trace, d, e, a, b, c, t + 2);
      b, d := R(block, words, schedule, trace, c, d, e, a, b, t + 3);
      a, c := R(block, words, schedule, trace, b, c, d, e, a, t + 4);
      t := t + 5;
    }
  }

  method AddTo(state: array<word>, v: Vars)
    requires state.Length == 5
    modifies state
    ensures StateOf(state) == Sum(old(StateOf(state)), v)
  {
    state[0] := Plus(state[0], v.a);
    state[1] := Plus(state[1], v.b);
    state[2] := Plus(state[2], v.c);
    state[3] := Plus(state[3], v.d);
    state[4] := Plus(state[4], v.e);
  }

  /** SHA1Transform on a copy of the block. */
  method Transform(state: array<word>, data: octets)
    requires state.Length == 5 && |data| == 64
    modifies state
    ensures StateOf(state) == Compress(old(StateOf(state)), Words(data))
  {
    var block := new word[16](i requires 0 <= i < 16 =>
      LittleEndianWord(data[4 * i], data[4 * i + 1], data[4 * i + 2], data[4 * i + 3]));
    ghost var words := Words(data);
    forall j | 0 <= j < 16 ensures SwapBytes(block[j]) == words[j] {
      SwapLoads(data[4 * j], data[4 * j + 1], data[4 * j + 2], data[4 * j + 3]);
    }
    ghost var schedule, trace := TraceOf(StateOf(state), words);
    assert forall j :: 0 <= j < 16 ==> schedule[j] == schedule[..16][j];
    var a, b, c, d, e :=
      EightyRounds(Vars(state[0], state[1], state[2], state[3], state[4]), block, words, schedule, trace);
    AddTo(state, Vars(a, b, c, d, e));
  }
}
