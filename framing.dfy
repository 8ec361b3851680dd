/**
 * The framing rules of `xf86emulated_read_input_from_test`.  One call is a
 * pass of reads from the non-blocking events-in channel; each read's outcome
 * is a value here.  A read delivers a number of whole records followed by a
 * number of leftover bytes fewer than one record; the record size itself is
 * `sizeof(EmulatedEvent)`, an ABI-dependent positive constant taken as a
 * parameter.
 */
module Framing {

  import opened WireTypes

  /** `events_buffer_size`: one read asks for at most this many records. */
  const EVENTS_BUFFER_SIZE: nat := 32

  /** What one `read` on the events-in channel reports. */
  datatype ReadResult =
    | WouldBlock                                  // -1 with EAGAIN / EWOULDBLOCK
    | ReadError                                   // -1 with any other errno
    | Eof                                         // 0: no writer
    | Data(records: seq<Event>, leftover: nat)    // whole records, then trailing bytes

  /** The value `read` returns for an outcome. */
  function ReadSize(r: ReadResult, recordSize: nat): int
  {
    match r
    case WouldBlock => -1
    case ReadError => -1
    case Eof => 0
    case Data(records, leftover) => |records| * recordSize + leftover
  }

  /**
   * What the channel can deliver: the trailing bytes are fewer than a record
   * and a read never returns more than the buffer it was given.
   */
  predicate ValidRead(r: ReadResult, recordSize: nat)
  {
    r.Data? ==>
      r.leftover < recordSize && ReadSize(r, recordSize) <= EVENTS_BUFFER_SIZE * recordSize
  }

  /** A read after which the pass goes on reading: a non-empty run of whole records. */
  predicate Continues(r: ReadResult)
  {
    r.Data? && r.leftover == 0 && r.records != []
  }

  /** The records of one read, dispatched or not. */
  function RecordsOf(r: ReadResult): seq<Event>
  {
    if r.Data? then r.records else []
  }

  /** The records of all the given outcomes, in order. */
  function Flatten(outcomes: seq<ReadResult>): seq<Event>
  {
    if outcomes == [] then [] else RecordsOf(outcomes[0]) + Flatten(outcomes[1..])
  }

  /**
   * The records a pass hands to `handle_event`, in order: those of every read
   * up to the first one that errs, would block, sees end of stream or has
   * trailing bytes; nothing of that read and nothing after it.
   */
  function Dispatched(outcomes: seq<ReadResult>): seq<Event>
  {
    if outcomes == [] || !Continues(outcomes[0]) then []
    else outcomes[0].records + Dispatched(outcomes[1..])
  }

  /**
   * How many reads a pass performs.  When the modelled outcomes run out the
   * pass stops, as the next read would block.
   */
  function ReadsConsumed(outcomes: seq<ReadResult>): nat
  {
    if outcomes == [] then 0
    else if !Continues(outcomes[0]) then 1
    else 1 + ReadsConsumed(outcomes[1..])
  }

  lemma DivModStep(x: nat, k: nat)
    requires k > 0
    ensures (x + k) % k == x % k && (x + k) / k == x / k + 1
  {
    var q, r := x / k, x % k;
    assert x + k == k * (q + 1) + r;
    DivModUnique(x + k, k, q + 1, r);
  }

  lemma DivModUnique(x: nat, k: nat, q: int, r: int)
    requires k > 0 && 0 <= r < k && x == k * q + r
    ensures x / k == q && x % k == r
  {
    var d := q - x / k;
    assert k * d == x % k - r;
    assert d >= 1 ==> k * d >= k * 1;
    assert d <= -1 ==> k * -d >= k * 1;
  }

  lemma {:induction false} WholeRecordArithmetic(n: nat, k: nat, l: nat)
    requires l < k
    ensures (n * k + l) % k == l
    ensures (n * k + l) / k == n
  {
    if n > 0 {
      WholeRecordArithmetic(n - 1, k, l);
      assert n * k + l == ((n - 1) * k + l) + k;
      DivModStep((n - 1) * k + l, k);
    }
  }

  /**
   * The driver's tests on the byte count decide what the record structure
   * says: the pass goes on exactly after a positive read of whole records,
   * and then `read_size / sizeof(EmulatedEvent)` is the number of records;
   * `read_size % sizeof(EmulatedEvent)` is the number of trailing bytes.
   */
  lemma FramingCheck(r: ReadResult, recordSize: nat)
    requires recordSize > 0 && ValidRead(r, recordSize)
    ensures (ReadSize(r, recordSize) > 0 && ReadSize(r, recordSize) % recordSize == 0)
            <==> Continues(r)
    ensures r.Data? ==> ReadSize(r, recordSize) % recordSize == r.leftover
    ensures Continues(r) ==> ReadSize(r, recordSize) / recordSize == |r.records|
  {
    if r.Data? {
      WholeRecordArithmetic(|r.records|, recordSize, r.leftover);
    }
  }

  lemma {:induction false} FlattenSnoc(outcomes: seq<ReadResult>, r: ReadResult)
    ensures Flatten(outcomes + [r]) == Flatten(outcomes) + RecordsOf(r)
  {
    if outcomes == [] {
      assert [r][1..] == [];
    } else {
      assert (outcomes + [r])[1..] == outcomes[1..] + [r];
      FlattenSnoc(outcomes[1..], r);
    }
  }

  /**
   * A pass stops at the first read that does not deliver whole records: the
   * records of every earlier read are dispatched, in order, and none of that
   * read or any later one.  In particular a read with trailing bytes
   * dispatches none of its own records.
   */
  lemma {:induction false} StopsAtFirstFailure(outcomes: seq<ReadResult>, k: nat)
    requires k < |outcomes|
    requires forall j :: 0 <= j < k ==> Continues(outcomes[j])
    requires !Continues(outcomes[k])
    ensures Dispatched(outcomes) == Flatten(outcomes[..k])
    ensures ReadsConsumed(outcomes) == k + 1
  {
    if k == 0 {
      assert outcomes[..0] == [];
    } else {
      assert outcomes[..k][1..] == outcomes[1..][..k - 1];
      StopsAtFirstFailure(outcomes[1..], k - 1);
    }
  }

  /** When every read delivers whole records, every record of every read is dispatched. */
  lemma {:induction false} AllReadsContinue(outcomes: seq<ReadResult>)
    requires forall j :: 0 <= j < |outcomes| ==> Continues(outcomes[j])
    ensures Dispatched(outcomes) == Flatten(outcomes)
    ensures ReadsConsumed(outcomes) == |outcomes|
  {
    if outcomes != [] {
      AllReadsContinue(outcomes[1..]);
    }
  }

  /** Reads after the one that ends the pass are never looked at. */
  lemma {:induction false} LaterReadsIgnored(outcomes: seq<ReadResult>, more: seq<ReadResult>)
    requires exists j :: 0 <= j < |outcomes| && !Continues(outcomes[j])
    ensures Dispatched(outcomes + more) == Dispatched(outcomes)
    ensures ReadsConsumed(outcomes + more) == ReadsConsumed(outcomes)
  {
    assert outcomes != [];
    assert (outcomes + more)[0] == outcomes[0];
    if Continues(outcomes[0]) {
      var j :| 0 <= j < |outcomes| && !Continues(outcomes[j]);
      assert j > 0 && !Continues(outcomes[1..][j - 1]);
      assert (outcomes + more)[1..] == outcomes[1..] + more;
      LaterReadsIgnored(outcomes[1..], more);
    }
  }
}
