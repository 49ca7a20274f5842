/**
 * The 2x16 character LCD driver: a 50-slot ring buffer of nibbles that the
 * foreground fills (LCD_write, LCD_init) and a 1 ms callback drains one entry
 * at a time onto the D4..D7 and RS pins (LCD_check).
 */
module Lcd {
  import opened Common

  const BUFFER_LENGTH: int := 50
  const ROW_LENGTH: int := 16
  const CONTROL_FLAG: int := 0x80

  /** Row selectors of the header. */
  const ROW_1: u8 := 0
  const ROW_2: u8 := 1

  /** One byte handed to LCD_push: an instruction (`control`) or a character. */
  datatype LcdByte = LcdByte(value: u8, control: bool)

  /** Levels driven by LCD_check before it pulses EN; `rs` is the RS pin (high for data). */
  datatype LcdPins = LcdPins(d4: bool, d5: bool, d6: bool, d7: bool, rs: bool)

  /** The two entries LCD_push stores for one byte: high nibble first, then the low nibble,
      both tagged with the control flag when the byte is an instruction. */
  function Nibbles(b: LcdByte): (r: seq<u8>)
    ensures |r| == 2
    ensures forall k :: 0 <= k < 2 ==> r[k] <= 0x8F && (r[k] >= CONTROL_FLAG <==> b.control)
    ensures (r[0] % 16) * 16 + r[1] % 16 == b.value
  {
    [Tagged(b.value / 16, b.control), Tagged(b.value % 16, b.control)]
  }

  /** A nibble with the control flag ORed in for an instruction. */
  function Tagged(nibble: u8, control: bool): (e: u8)
    requires nibble < 16
  {
    if control then nibble + CONTROL_FLAG else nibble
  }

  /** The queue entries for a sequence of bytes pushed in order. */
  function Entries(items: seq<LcdByte>): (r: seq<u8>)
    ensures |r| == 2 * |items|
  {
    if items == [] then [] else Entries(items[..|items| - 1]) + Nibbles(items[|items| - 1])
  }

  /** Entries 2k and 2k+1 are the two nibbles of byte k. */
  lemma {:induction false} EntriesAt(items: seq<LcdByte>, k: int)
    requires 0 <= k < |items|
    ensures Entries(items)[2 * k] == Nibbles(items[k])[0]
    ensures Entries(items)[2 * k + 1] == Nibbles(items[k])[1]
  {
    if k < |items| - 1 {
      EntriesAt(items[..|items| - 1], k);
    }
  }

  /**
   * How many of `n` bytes LCD_push accepts one after the other from a queue holding `counter`
   * entries. It refuses a byte only once the counter is at least 50, so each accepted byte
   * started below 50 and the first refused one (if any) at 50 or more; a byte accepted at 49
   * takes the counter to 51.
   */
  function Room(counter: int, n: nat): (r: nat)
    requires 0 <= counter <= BUFFER_LENGTH + 1
    ensures r <= n && counter + 2 * r <= BUFFER_LENGTH + 1
    ensures r > 0 ==> counter + 2 * (r - 1) < BUFFER_LENGTH
    ensures r < n ==> counter + 2 * r >= BUFFER_LENGTH
  {
    if (BUFFER_LENGTH + 1 - counter) / 2 < n then (BUFFER_LENGTH + 1 - counter) / 2 else n
  }

  /** The bytes of `items` that LCD_push accepts, pushed in order onto a queue holding `counter` entries. */
  function Fitting(counter: int, items: seq<LcdByte>): (r: seq<LcdByte>)
    requires 0 <= counter <= BUFFER_LENGTH + 1
    ensures |r| == Room(counter, |items|) && r <= items
  {
    items[..Room(counter, |items|)]
  }

  /** The entries of two sequences pushed one after the other are the entries of their concatenation. */
  lemma {:induction false} EntriesConcat(a: seq<LcdByte>, b: seq<LcdByte>)
    ensures Entries(a + b) == Entries(a) + Entries(b)
    decreases |b|
  {
    if b == [] {
      assert a + b == a;
    } else {
      var front := b[..|b| - 1];
      EntriesConcat(a, front);
      assert (a + b)[..|a + b| - 1] == a + front;
      assert Entries(a) + Entries(front) + Nibbles(b[|b| - 1]) == Entries(a) + (Entries(front) + Nibbles(b[|b| - 1]));
    }
  }

  /**
   * Pushing `a` and then `b` a byte at a time accepts what LCD_push takes of `a`, then what it
   * takes of `b` from the counter left; only once all of `a` was taken can any of `b` be.
   */
  lemma FittingConcat(c: int, a: seq<LcdByte>, b: seq<LcdByte>)
    requires 0 <= c <= BUFFER_LENGTH + 1
    ensures c + 2 * Room(c, |a|) <= BUFFER_LENGTH + 1
    ensures Room(c, |a| + |b|) == Room(c, |a|) + Room(c + 2 * Room(c, |a|), |b|)
    ensures Room(c + 2 * Room(c, |a|), |b|) > 0 ==> Room(c, |a|) == |a|
    ensures Entries(Fitting(c, a + b)) == Entries(Fitting(c, a)) + Entries(Fitting(c + 2 * Room(c, |a|), b))
  {
    var r := Room(c, |a|);
    var r2 := Room(c + 2 * r, |b|);
    assert (BUFFER_LENGTH + 1 - (c + 2 * r)) / 2 == (BUFFER_LENGTH + 1 - c) / 2 - r;
    assert Room(c, |a| + |b|) == r + r2;
    if r2 > 0 {
      assert (a + b)[..r + r2] == a[..r] + b[..r2];
    } else {
      assert (a + b)[..r] == a[..r] + b[..0];
    }
    assert Fitting(c, a + b) == Fitting(c, a) + Fitting(c + 2 * r, b);
    EntriesConcat(Fitting(c, a), Fitting(c + 2 * r, b));
  }

  /** Decoding of one entry as LCD_check does it: D4..D7 from bits 0..3, RS low for instructions. */
  function DecodeEntry(e: u8): (p: LcdPins)
    ensures NibbleOf(p) == e % 16
    ensures p.rs <==> e < CONTROL_FLAG
  {
    LowNibbleBits(e);
    LcdPins(e % 2 == 1, (e / 2) % 2 == 1, (e / 4) % 2 == 1, (e / 8) % 2 == 1, (e / 0x80) % 2 == 0)
  }

  /** The 4-bit value on D4..D7 (D4 is the least significant bit). */
  function NibbleOf(p: LcdPins): int
  {
    (if p.d4 then 1 else 0) + 2 * (if p.d5 then 1 else 0) + 4 * (if p.d6 then 1 else 0)
      + 8 * (if p.d7 then 1 else 0)
  }

  /** The two pin patterns that carry a byte rebuild it, and RS tells instruction from data. */
  lemma PinsCarryByte(b: LcdByte)
    ensures NibbleOf(DecodeEntry(Nibbles(b)[0])) * 16 + NibbleOf(DecodeEntry(Nibbles(b)[1])) == b.value
    ensures DecodeEntry(Nibbles(b)[0]).rs == DecodeEntry(Nibbles(b)[1]).rs == !b.control
  {
  }

  /** The row-address instruction LCD_write queues first: none for an unknown row. */
  function RowCommand(row: u8, start: u8): (r: seq<LcdByte>)
    ensures |r| <= 1
    ensures row == ROW_1 ==> r == [LcdByte((start + 0x80) % 0x100, true)]
    ensures row == ROW_2 ==> r == [LcdByte((start + 0xC0) % 0x100, true)]
    ensures row != ROW_1 && row != ROW_2 ==> r == []
  {
    if row == ROW_1 then [LcdByte((start + 0x80) % 0x100, true)]
    else if row == ROW_2 then [LcdByte((start + 0xC0) % 0x100, true)]
    else []
  }

  /** How many characters LCD_write sends: up to the first NUL, at most `cap`. */
  function MessageLengthUpTo(message: seq<u8>, cap: nat): (n: nat)
    ensures n <= cap && n <= |message|
    ensures forall j :: 0 <= j < n ==> message[j] != 0
    ensures n < cap && n < |message| ==> message[n] == 0
  {
    if cap == 0 || message == [] || message[0] == 0 then 0
    else 1 + MessageLengthUpTo(message[1..], cap - 1)
  }

  function MessageLength(message: seq<u8>): nat
  {
    MessageLengthUpTo(message, ROW_LENGTH)
  }

  /** The characters LCD_write's loop hands to LCD_push, as data bytes. */
  function Characters(message: seq<u8>): (r: seq<LcdByte>)
    ensures |r| == MessageLength(message)
    ensures forall j :: 0 <= j < |r| ==> r[j] == LcdByte(message[j], false)
  {
    var n := MessageLength(message);
    seq(n, j requires 0 <= j < n => LcdByte(message[j], false))
  }

  /** Everything LCD_write hands to LCD_push, in order. */
  function WriteItems(message: seq<u8>, row: u8, start: u8): (r: seq<LcdByte>)
    ensures |r| == |RowCommand(row, start)| + MessageLength(message) <= ROW_LENGTH + 1
    ensures r[..|RowCommand(row, start)|] == RowCommand(row, start)
    ensures forall j :: 0 <= j < MessageLength(message) ==>
      r[|RowCommand(row, start)| + j] == LcdByte(message[j], false)
  {
    RowCommand(row, start) + Characters(message)
  }

  /** The instructions of LCD_init: 4-bit mode on two lines, cursor off, clear, increment, display on. */
  const INIT_ITEMS: seq<LcdByte> :=
    [LcdByte(0x28, true), LcdByte(0x08, true), LcdByte(0x01, true), LcdByte(0x06, true), LcdByte(0x0C, true)]

  /** From an empty queue LCD_init leaves exactly these ten tagged nibbles. */
  lemma InitEntries()
    ensures Entries(Fitting(0, INIT_ITEMS))
         == [0x82, 0x88, 0x80, 0x88, 0x80, 0x81, 0x80, 0x86, 0x80, 0x8C]
  {
    assert Fitting(0, INIT_ITEMS) == INIT_ITEMS;
    var e := Entries(INIT_ITEMS);
    assert Nibbles(INIT_ITEMS[0]) == [0x82, 0x88];
    assert Nibbles(INIT_ITEMS[1]) == [0x80, 0x88];
    assert Nibbles(INIT_ITEMS[2]) == [0x80, 0x81];
    assert Nibbles(INIT_ITEMS[3]) == [0x80, 0x86];
    assert Nibbles(INIT_ITEMS[4]) == [0x80, 0x8C];
    EntriesAt(INIT_ITEMS, 0);
    EntriesAt(INIT_ITEMS, 1);
    EntriesAt(INIT_ITEMS, 2);
    EntriesAt(INIT_ITEMS, 3);
    EntriesAt(INIT_ITEMS, 4);
    assert e[0] == 0x82 && e[1] == 0x88;
    assert e[2] == 0x80 && e[3] == 0x88;
    assert e[4] == 0x80 && e[5] == 0x81;
    assert e[6] == 0x80 && e[7] == 0x86;
    assert e[8] == 0x80 && e[9] == 0x8C;
  }

  /** The module state of LCD.c: LCD_buffer, LCD_in_idx, LCD_out_idx, LCD_buffer_counter. */
  class LcdQueue {
    var buffer: array<u8>
    var inIdx: int
    var outIdx: int
    var counter: int
    /** The unread entries, oldest first (meaningful while the counter is at most 50). */
    ghost var contents: seq<u8>

    /** What every reachable state satisfies, including the one the full-check defect produces. */
    ghost predicate Wellformed()
      reads this
    {
      && buffer.Length == BUFFER_LENGTH
      && 0 <= inIdx < BUFFER_LENGTH && 0 <= outIdx < BUFFER_LENGTH
      && 0 <= counter <= BUFFER_LENGTH + 1
      && inIdx == (outIdx + counter) % BUFFER_LENGTH
    }

    /** No entry has been overwritten: the ring holds `contents` from `outIdx` on. */
    ghost predicate Valid()
      reads this, buffer
    {
      && Wellformed()
      && counter <= BUFFER_LENGTH
      && |contents| == counter
      && Holds(contents, buffer[..], outIdx)
    }

    constructor ()
      ensures Valid() && fresh(buffer)
      ensures contents == [] && inIdx == 0 && outIdx == 0
    {
      buffer := new u8[BUFFER_LENGTH](_ => 0);
      inIdx, outIdx, counter := 0, 0, 0;
      contents := [];
    }

    /** LCD_push as written: refuses only a full queue, then writes two entries. */
    method Push(data: u8, control: bool)
      requires Wellformed()
      modifies this, buffer
      ensures Wellformed() && buffer == old(buffer) && outIdx == old(outIdx)
      ensures old(counter) >= BUFFER_LENGTH ==>
        counter == old(counter) && inIdx == old(inIdx) && contents == old(contents) && buffer[..] == old(buffer[..])
      ensures old(counter) < BUFFER_LENGTH ==>
        && counter == old(counter) + 2
        && inIdx == (old(inIdx) + 2) % BUFFER_LENGTH
        && buffer[..] == old(buffer[..])[old(inIdx) := Nibbles(LcdByte(data, control))[0]]
                                        [(old(inIdx) + 1) % BUFFER_LENGTH := Nibbles(LcdByte(data, control))[1]]
        && contents == old(contents) + Nibbles(LcdByte(data, control))
      ensures old(counter) == BUFFER_LENGTH - 1 ==>
        counter == BUFFER_LENGTH + 1 && buffer[old(outIdx)] == Nibbles(LcdByte(data, control))[1]
      ensures old(Valid()) && counter <= BUFFER_LENGTH ==> Valid()
    {
      if counter >= BUFFER_LENGTH {
        return;
      }
      var high, low := Tagged(data / 16, control), Tagged(data % 16, control);
      assert Nibbles(LcdByte(data, control)) == [high, low];
      ghost var c: seq<u8>, before: seq<u8> := contents, buffer[..];
      ghost var first, second := inIdx, (inIdx + 1) % BUFFER_LENGTH;
      ghost var intact := Valid() && counter <= BUFFER_LENGTH - 2;
      ModSuccessor(outIdx + counter, BUFFER_LENGTH);
      assert counter == BUFFER_LENGTH - 1 ==> second == outIdx;
      StorePair(high, low);
      if intact {
        HoldsPair(c, before, outIdx, first, second, high, low);
      }
    }

    /** The two halves of LCD_push: each entry goes to the in-index, which then advances. */
    method StorePair(high: u8, low: u8)
      requires Wellformed() && counter < BUFFER_LENGTH
      modifies this, buffer
      ensures Wellformed() && buffer == old(buffer) && outIdx == old(outIdx)
      ensures counter == old(counter) + 2 && inIdx == (old(inIdx) + 2) % BUFFER_LENGTH
      ensures buffer[..] == old(buffer[..])[old(inIdx) := high][(old(inIdx) + 1) % BUFFER_LENGTH := low]
      ensures contents == old(contents) + [high, low]
    {
      ModSuccessor(outIdx + counter, BUFFER_LENGTH);
      ModSuccessor(outIdx + counter + 1, BUFFER_LENGTH);
      ModSuccessor(inIdx + 1, BUFFER_LENGTH);
      buffer[inIdx] := high;
      inIdx := (inIdx + 1) % BUFFER_LENGTH;
      counter := counter + 1;
      buffer[inIdx] := low;
      inIdx := (inIdx + 1) % BUFFER_LENGTH;
      counter := counter + 1;
      contents := contents + [high, low];
    }

    /** LCD_push with the full check it needs: refuses unless both entries fit, so nothing is overwritten. */
    method PushGuarded(data: u8, control: bool)
      requires Valid()
      modifies this, buffer
      ensures Valid() && buffer == old(buffer) && outIdx == old(outIdx)
      ensures old(counter) <= BUFFER_LENGTH - 2 ==>
        counter == old(counter) + 2 && contents == old(contents) + Nibbles(LcdByte(data, control))
      ensures old(counter) > BUFFER_LENGTH - 2 ==> counter == old(counter) && contents == old(contents)
    {
      if counter > BUFFER_LENGTH - 2 {
        return;
      }
      Push(data, control);
    }

    /** LCD_push of byte `k` of `items`, stated as the progress of a whole sequence of pushes. */
    method PushStep(ghost base: seq<u8>, ghost c0: int, ghost items: seq<LcdByte>, ghost k: nat,
                    ghost pushed: seq<LcdByte>, data: u8, control: bool)
      requires 0 <= c0 <= BUFFER_LENGTH + 1 && k < |items| && items[k] == LcdByte(data, control)
      requires pushed == items[..k + 1]
      requires Wellformed() && counter == c0 + 2 * Room(c0, k) && contents == base + Entries(Fitting(c0, items[..k]))
      modifies this, buffer
      ensures Wellformed() && buffer == old(buffer) && outIdx == old(outIdx)
      ensures counter == c0 + 2 * Room(c0, |pushed|) && contents == base + Entries(Fitting(c0, pushed))
      ensures old(counter) <= counter
      ensures old(Valid()) && counter <= BUFFER_LENGTH ==> Valid()
    {
      ExtendStep(base, c0, items, k);
      PushOne(counter, items[k]);
      Push(data, control);
    }

    /** LCD_pop: -1 on an empty queue, otherwise the oldest entry, which is removed. */
    method Pop() returns (data: int)
      requires Wellformed()
      modifies this
      ensures Wellformed() && buffer == old(buffer) && inIdx == old(inIdx)
      ensures old(counter) == 0 ==>
        data == -1 && counter == 0 && outIdx == old(outIdx) && contents == old(contents)
      ensures old(counter) > 0 ==>
        && data == buffer[old(outIdx)]
        && counter == old(counter) - 1
        && outIdx == (old(outIdx) + 1) % BUFFER_LENGTH
      ensures old(Valid()) ==> Valid()
      ensures old(Valid()) && old(counter) > 0 ==>
        data == old(contents)[0] && contents == old(contents)[1..]
    {
      data := -1;
      if counter > 0 {
        if Valid() {
          HoldsTail(contents, buffer[..], outIdx);
        }
        data := buffer[outIdx];
        counter := counter - 1;
        RingNext(outIdx, counter);
        outIdx := (outIdx + 1) % BUFFER_LENGTH;
        if |contents| > 0 {
          contents := contents[1..];
        }
      }
    }

    /** LCD_check: pops one entry and, if there was one, returns the pin levels it drives. */
    method Check() returns (pins: Option<LcdPins>)
      requires Wellformed()
      modifies this
      ensures Wellformed() && buffer == old(buffer) && inIdx == old(inIdx)
      ensures old(counter) == 0 ==> pins == None && counter == 0 && outIdx == old(outIdx)
      ensures old(counter) > 0 ==>
        && pins == Some(DecodeEntry(buffer[old(outIdx)]))
        && counter == old(counter) - 1
        && outIdx == (old(outIdx) + 1) % BUFFER_LENGTH
      ensures old(Valid()) ==> Valid()
      ensures old(Valid()) && old(counter) > 0 ==>
        pins == Some(DecodeEntry(old(contents)[0])) && contents == old(contents)[1..]
    {
      var data := Pop();
      if data != -1 {
        pins := Some(DecodeEntry(data));
      } else {
        pins := None;
      }
    }

    /** LCD_write: the row address (if the row is known), then the message characters. */
    method Write(message: seq<u8>, row: u8, start: u8)
      requires Wellformed()
      modifies this, buffer
      ensures Wellformed() && buffer == old(buffer) && outIdx == old(outIdx)
      ensures counter == old(counter) + 2 * Room(old(counter), |WriteItems(message, row, start)|)
      ensures contents == old(contents) + Entries(Fitting(old(counter), WriteItems(message, row, start)))
      ensures old(Valid()) && counter <= BUFFER_LENGTH ==> Valid()
    {
      ghost var c0, base, command := counter, contents, RowCommand(row, start);
      ghost var intact := Valid();
      assert command[..0] == [] && command[..|command|] == command;
      if row == ROW_1 {
        PushStep(base, c0, command, 0, command, (start + 0x80) % 0x100, true);
      } else if row == ROW_2 {
        PushStep(base, c0, command, 0, command, (start + 0xC0) % 0x100, true);
      }
      ghost var c1, middle, chars := counter, contents, Characters(message);
      assert c1 == c0 + 2 * Room(c0, |command|) && middle == base + Entries(Fitting(c0, command));
      assert intact && c1 <= BUFFER_LENGTH ==> Valid();
      PushCharacters(message);
      AppendPushes(base, c0, command, chars, c1, middle);
      assert WriteItems(message, row, start) == command + chars;
    }

    /** The loop of LCD_write: one push per character, up to the first NUL and at most 16. */
    method PushCharacters(message: seq<u8>)
      requires Wellformed()
      modifies this, buffer
      ensures Wellformed() && buffer == old(buffer) && outIdx == old(outIdx)
      ensures counter == old(counter) + 2 * Room(old(counter), MessageLength(message))
      ensures contents == old(contents) + Entries(Fitting(old(counter), Characters(message)))
      ensures old(Valid()) && counter <= BUFFER_LENGTH ==> Valid()
    {
      ghost var c0, base, chars := counter, contents, Characters(message);
      ghost var intact := Valid();
      assert chars[..0] == [];
      var i := 0;
      while i < ROW_LENGTH && i < |message| && message[i] != 0
        invariant 0 <= i <= |chars| && 0 <= c0 <= BUFFER_LENGTH + 1
        invariant Wellformed() && buffer == old(buffer) && outIdx == old(outIdx)
        invariant counter == c0 + 2 * Room(c0, i)
        invariant contents == base + Entries(Fitting(c0, chars[..i]))
        invariant intact && counter <= BUFFER_LENGTH ==> Valid()
      {
        PushStep(base, c0, chars, i, chars[..i + 1], message[i], false);
        i := i + 1;
      }
      assert chars[..i] == chars;
    }

    /** The queued part of LCD_init (the pin bit-banging and delays before it are not modelled). */
    method Init()
      requires Wellformed()
      modifies this, buffer
      ensures Wellformed() && buffer == old(buffer) && outIdx == old(outIdx)
      ensures counter == old(counter) + 2 * Room(old(counter), |INIT_ITEMS|)
      ensures contents == old(contents) + Entries(Fitting(old(counter), INIT_ITEMS))
      ensures old(Valid()) && counter <= BUFFER_LENGTH ==> Valid()
    {
      ghost var c0, base, items := counter, contents, INIT_ITEMS;
      assert items[..0] == [];
      PushStep(base, c0, items, 0, items[..1], 0x28, true);
      PushStep(base, c0, items, 1, items[..2], 0x08, true);
      PushStep(base, c0, items, 2, items[..3], 0x01, true);
      PushStep(base, c0, items, 3, items[..4], 0x06, true);
      assert items[..5] == items;
      PushStep(base, c0, items, 4, items, 0x0C, true);
    }
  }

  /** The ring `buf` holds `contents`, oldest first, from slot `out` on. */
  ghost predicate Holds(contents: seq<u8>, buf: seq<u8>, out: int)
    requires |buf| == BUFFER_LENGTH && 0 <= out < BUFFER_LENGTH
  {
    forall i :: 0 <= i < |contents| ==> contents[i] == buf[(out + i) % BUFFER_LENGTH]
  }

  /** Writing an entry at the first free slot appends it, and overwrites nothing held. */
  lemma HoldsAppend(contents: seq<u8>, buf: seq<u8>, out: int, e: u8)
    requires |buf| == BUFFER_LENGTH && 0 <= out < BUFFER_LENGTH && |contents| < BUFFER_LENGTH
    requires Holds(contents, buf, out)
    ensures Holds(contents + [e], buf[(out + |contents|) % BUFFER_LENGTH := e], out)
  {
    var c, slot := |contents|, (out + |contents|) % BUFFER_LENGTH;
    var after := buf[slot := e];
    forall i | 0 <= i < c + 1
      ensures (contents + [e])[i] == after[(out + i) % BUFFER_LENGTH]
    {
      RingSlot(out, c, i);
    }
  }

  /** Writing two entries at the first two free slots appends both, while two slots are free. */
  lemma HoldsPair(contents: seq<u8>, buf: seq<u8>, out: int, first: int, second: int, e0: u8, e1: u8)
    requires |buf| == BUFFER_LENGTH && 0 <= out < BUFFER_LENGTH && |contents| <= BUFFER_LENGTH - 2
    requires first == (out + |contents|) % BUFFER_LENGTH && second == (first + 1) % BUFFER_LENGTH
    requires Holds(contents, buf, out)
    ensures Holds(contents + [e0, e1], buf[first := e0][second := e1], out)
  {
    ModSuccessor(out + |contents|, BUFFER_LENGTH);
    HoldsAppend(contents, buf, out, e0);
    HoldsAppend(contents + [e0], buf[(out + |contents|) % BUFFER_LENGTH := e0], out, e1);
    assert contents + [e0] + [e1] == contents + [e0, e1];
  }

  /** Taking the oldest entry leaves the rest held from the next slot on. */
  lemma HoldsTail(contents: seq<u8>, buf: seq<u8>, out: int)
    requires |buf| == BUFFER_LENGTH && 0 <= out < BUFFER_LENGTH && |contents| > 0
    requires Holds(contents, buf, out)
    ensures contents[0] == buf[out]
    ensures Holds(contents[1..], buf, (out + 1) % BUFFER_LENGTH)
  {
    assert contents[0] == buf[(out + 0) % BUFFER_LENGTH];
    forall i | 0 <= i < |contents| - 1
      ensures contents[1..][i] == buf[((out + 1) % BUFFER_LENGTH + i) % BUFFER_LENGTH]
    {
      assert contents[1..][i] == contents[i + 1];
      RingNext(out, i);
    }
  }

  /** Slot `i` past the slot after `out` is slot `i + 1` past `out`. */
  lemma RingNext(out: int, i: nat)
    requires 0 <= out < BUFFER_LENGTH
    ensures ((out + 1) % BUFFER_LENGTH + i) % BUFFER_LENGTH == (out + (i + 1)) % BUFFER_LENGTH
  {
    if out == BUFFER_LENGTH - 1 {
      assert (out + 1) % BUFFER_LENGTH == 0;
      assert out + (i + 1) == i + BUFFER_LENGTH;
    }
  }

  /** Slot `i` past `out` in the ring, below the in-index of a ring holding `c` entries. */
  lemma RingSlot(out: int, c: int, i: int)
    requires 0 <= out < BUFFER_LENGTH && 0 <= c < BUFFER_LENGTH && 0 <= i <= c
    ensures i < c ==> (out + i) % BUFFER_LENGTH != (out + c) % BUFFER_LENGTH
  {
  }

  /**
   * A queue left at counter `c1` and contents `middle` by pushing `a` on top of `c0` and
   * `base`, once `b` is pushed too, is where pushing `a + b` would have left it.
   */
  lemma AppendPushes(base: seq<u8>, c0: int, a: seq<LcdByte>, b: seq<LcdByte>, c1: int, middle: seq<u8>)
    requires 0 <= c0 <= BUFFER_LENGTH + 1
    requires c1 == c0 + 2 * Room(c0, |a|) && middle == base + Entries(Fitting(c0, a))
    ensures 0 <= c1 <= BUFFER_LENGTH + 1
    ensures c1 + 2 * Room(c1, |b|) == c0 + 2 * Room(c0, |a + b|)
    ensures middle + Entries(Fitting(c1, b)) == base + Entries(Fitting(c0, a + b))
  {
    var x, y := Entries(Fitting(c0, a)), Entries(Fitting(c1, b));
    assert base + x + y == base + (x + y);
    FittingConcat(c0, a, b);
    assert |a + b| == |a| + |b|;
  }

  /** One more byte of `items` pushed on top of what the first `k` of them left. */
  lemma ExtendStep(base: seq<u8>, c0: int, items: seq<LcdByte>, k: nat)
    requires 0 <= c0 <= BUFFER_LENGTH + 1 && k < |items|
    ensures c0 + 2 * Room(c0, k) <= BUFFER_LENGTH + 1
    ensures Room(c0, k + 1) == Room(c0, k) + Room(c0 + 2 * Room(c0, k), 1)
    ensures (base + Entries(Fitting(c0, items[..k]))) + Entries(Fitting(c0 + 2 * Room(c0, k), [items[k]]))
         == base + Entries(Fitting(c0, items[..k + 1]))
  {
    var x, y := Entries(Fitting(c0, items[..k])), Entries(Fitting(c0 + 2 * Room(c0, k), [items[k]]));
    assert base + x + y == base + (x + y);
    FittingConcat(c0, items[..k], [items[k]]);
    assert |items[..k]| == k && |[items[k]]| == 1;
    assert items[..k] + [items[k]] == items[..k + 1];
  }

  /** One byte pushed onto a queue holding `c` entries: taken exactly when the counter is below 50. */
  lemma PushOne(c: int, b: LcdByte)
    requires 0 <= c <= BUFFER_LENGTH + 1
    ensures c < BUFFER_LENGTH ==> Room(c, 1) == 1 && Entries(Fitting(c, [b])) == Nibbles(b)
    ensures c >= BUFFER_LENGTH ==> Room(c, 1) == 0 && Entries(Fitting(c, [b])) == []
  {
    if c < BUFFER_LENGTH {
      assert Fitting(c, [b]) == [b];
      assert Entries([b]) == Entries([]) + Nibbles(b);
    } else {
      assert Fitting(c, [b]) == [];
    }
  }

  /**
   * The full-check defect of LCD_push, reached from reset: 25 pushes fill the queue,
   * one pop leaves 49 entries, and the next push is accepted although only one slot is
   * free. The counter goes to 51 and the oldest unread entry (the low nibble of the first
   * byte, 0x01) is overwritten by the low nibble of the new byte (0x02).
   */
  method OverflowAfterOnePop() returns (count: int, next: int)
    ensures count == BUFFER_LENGTH + 1
    ensures next == 0x02
  {
    var q := new LcdQueue();
    var i := 0;
    while i < 25
      invariant 0 <= i <= 25
      invariant fresh(q) && fresh(q.buffer)
      invariant q.Wellformed() && q.outIdx == 0 && q.counter == 2 * i
    {
      q.Push(0x41, false);
      i := i + 1;
    }
    var first := q.Pop();
    q.Push(0x42, false);
    count := q.counter;
    next := q.Pop();
  }

  /**
   * LCD_write of "A" on row 1 onto a queue of 49 entries: the row instruction is still
   * accepted and takes the counter to 51, and the character is refused.
   */
  lemma WriteAtFortyNine()
    ensures WriteItems([0x41, 0], ROW_1, 0) == [LcdByte(0x80, true), LcdByte(0x41, false)]
    ensures 49 + 2 * Room(49, |WriteItems([0x41, 0], ROW_1, 0)|) == BUFFER_LENGTH + 1
    ensures Fitting(49, WriteItems([0x41, 0], ROW_1, 0)) == [LcdByte(0x80, true)]
  {
    var message: seq<u8> := [0x41, 0];
    assert message[1..] == [0];
    assert MessageLength(message) == 1;
  }
}
