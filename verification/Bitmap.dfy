/** The message-buffer allocator of include/sel4/rpc_queue.h: a bitmap of 64-bit words, searched and
    updated in place, against the plain set of lent ids. */
module Bitmap {
  import opened Bits
  import Finite

  const WORD: nat := 64
  const BUFFERS: nat := 32

  /** Whether number j is in the bitmap. */
  predicate Member(words: seq<nat>, j: nat) {
    j / WORD < |words| && Bit(words[j / WORD], j % WORD)
  }

  /** The numbers below size that are in the bitmap. */
  ghost function Members(words: seq<nat>, size: nat): set<nat> {
    set j: nat | j < size && Member(words, j)
  }

  /** The least number from j to n that is not in s, or n. */
  function LowestFree(s: set<nat>, j: nat, n: nat): (r: nat)
    requires j <= n
    ensures j <= r <= n && (r < n ==> r !in s) && (forall k: nat :: j <= k < r ==> k in s)
    decreases n - j
  {
    if j == n || j !in s then j else LowestFree(s, j + 1, n)
  }

  lemma LowestFreeUnique(s: set<nat>, n: nat, r: nat)
    requires r <= n && (r < n ==> r !in s) && (forall k: nat :: k < r ==> k in s)
    ensures r == LowestFree(s, 0, n)
  {
  }

  /** __builtin_ctzl */
  function TrailingZeros(v: nat): (r: nat)
    requires v > 0
    ensures Bit(v, r) && forall j: nat :: j < r ==> !Bit(v, j)
  {
    if v % 2 == 1 then 0
    else
      var r := TrailingZeros(v / 2);
      assert forall j: nat :: 0 < j < r + 1 ==> Bit(v, j) == Bit(v / 2, j - 1);
      r + 1
  }

  lemma {:induction false} OneBit(n: nat, i: nat)
    ensures Bit(Shl(1, n), i) <==> i == n
  {
    ShlBit(1, n, i);
    if n < i { assert Bit(1, i - n) == Bit(0, i - n - 1); ZeroBit(i - n - 1); }
  }

  /** What the first non-full word says about the whole bitmap. */
  lemma {:induction false} FirstZeroInWord(words: seq<nat>, i: nat, size: nat)
    requires i < |words| && i * WORD < size
    requires forall j: nat :: j < i * WORD ==> Member(words, j)
    ensures var v := Not(words[i], WORD);
            && (v == 0 ==> forall j: nat :: j < (i + 1) * WORD ==> Member(words, j))
            && (v > 0 ==> var r := i * WORD + TrailingZeros(v);
                          !Member(words, r) && forall j: nat :: j < r ==> Member(words, j))
  {
    var v := Not(words[i], WORD);
    forall j: nat | i * WORD <= j < (i + 1) * WORD
      ensures Member(words, j) <==> !Bit(v, j - i * WORD) {
      assert j / WORD == i && j % WORD == j - i * WORD;
      NotBit(words[i], WORD, j - i * WORD);
    }
    if v == 0 {
      forall k: nat ensures !Bit(v, k) { ZeroBit(k); }
    } else {
      NotBit(words[i], WORD, TrailingZeros(v));
    }
  }

  /** _find_first_zero_bit */
  method FindFirstZero(addr: array<nat>, size: nat) returns (n: nat)
    requires size <= addr.Length * WORD
    ensures n == LowestFree(Members(addr[..], size), 0, size)
    ensures n <= size && (n < size ==> !Member(addr[..], n)) && forall j: nat :: j < n ==> Member(addr[..], j)
  {
    var i := 0;
    n := size;
    while i * WORD < n
      invariant n == size && i <= addr.Length
      invariant forall j: nat :: j < i * WORD ==> Member(addr[..], j)
    {
      var v := Not(addr[i], WORD);
      FirstZeroInWord(addr[..], i, size);
      if v != 0 {
        var found := i * WORD + TrailingZeros(v);
        n := if found < n then found else n;
        break;
      }
      i := i + 1;
    }
    LowestFreeUnique(Members(addr[..], size), size, n);
  }

  /** _set_bit */
  method SetBit(nr: nat, addr: array<nat>)
    requires nr / WORD < addr.Length
    modifies addr
    ensures forall j: nat :: Member(addr[..], j) <==> Member(old(addr[..]), j) || j == nr
  {
    var w := nr / WORD;
    addr[w] := Or(addr[w], Shl(1, nr % WORD));
    forall j: nat ensures Member(addr[..], j) <==> Member(old(addr[..]), j) || j == nr {
      if j / WORD == w {
        OrBit(old(addr[w]), Shl(1, nr % WORD), j % WORD);
        OneBit(nr % WORD, j % WORD);
      }
    }
  }

  /** _clear_bit */
  method ClearBit(nr: nat, addr: array<nat>)
    requires nr / WORD < addr.Length
    modifies addr
    ensures forall j: nat :: Member(addr[..], j) <==> Member(old(addr[..]), j) && j != nr
  {
    var w := nr / WORD;
    addr[w] := And(addr[w], Not(Shl(1, nr % WORD), WORD));
    forall j: nat ensures Member(addr[..], j) <==> Member(old(addr[..]), j) && j != nr {
      if j / WORD == w {
        AndBit(old(addr[w]), Not(Shl(1, nr % WORD), WORD), j % WORD);
        NotBit(Shl(1, nr % WORD), WORD, j % WORD);
        OneBit(nr % WORD, j % WORD);
      }
    }
  }

  /** rpcmsg_buffer_state_t with the two operations on it; ids stand for message pointers. */
  class BufferState {
    const state: array<nat>

    ghost predicate Valid() reads this { state.Length == 1 }

    ghost function Lent(): set<nat>
      reads this, state
    {
      Members(state[..], BUFFERS)
    }

    constructor ()
      ensures Valid() && Lent() == {} && fresh(state)
    {
      state := new nat[1](_ => 0);
      new;
      forall j: nat ensures !Member(state[..], j) { ZeroBit(j % WORD); }
    }

    /** rpcmsg_lend_buffer: the lowest free id, or BUFFERS for NULL. */
    method Lend() returns (id: nat)
      requires Valid()
      modifies state
      ensures id == LowestFree(old(Lent()), 0, BUFFERS)
      ensures id < BUFFERS <==> |old(Lent())| < BUFFERS
      ensures Lent() == old(Lent()) + if id < BUFFERS then {id} else {}
    {
      id := FindFirstZero(state, BUFFERS);
      AllLent(Lent(), id);
      if id >= BUFFERS { return; }
      SetBit(id, state);
    }

    /** rpcmsg_reclaim_buffer */
    method Reclaim(id: nat)
      requires Valid() && id < BUFFERS
      modifies state
      ensures Lent() == old(Lent()) - {id}
    {
      ClearBit(id, state);
    }
  }

  /** Nothing is free only when every id is lent. */
  lemma AllLent(s: set<nat>, id: nat)
    requires (forall j :: j in s ==> j < BUFFERS) && id == LowestFree(s, 0, BUFFERS)
    ensures id < BUFFERS <==> |s| < BUFFERS
  {
    Finite.FillsUp(s, BUFFERS);
    if id == BUFFERS { Finite.SubsetSize(Finite.UpTo(BUFFERS), s); }
  }
}
