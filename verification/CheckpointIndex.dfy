/** The sparse checkpoint index: its file format, loading with self-repair, lookup, and what a crash can do. */
module CheckpointIndex {
  import opened Options
  import opened Bytes

  const ENTRY_BYTES: nat := 16

  datatype Checkpoint = Checkpoint(off: Uint64, pos: Int64)

  function EncodeEntry(e: Checkpoint): (b: seq<byte>)
    ensures |b| == ENTRY_BYTES
  {
    PutU64(e.off) + PutU64(ToUint64(e.pos))
  }

  function DecodeEntry(b: seq<byte>): Checkpoint
    requires |b| >= ENTRY_BYTES
  {
    Checkpoint(U64(b), ToInt64(U64(b[8..])))
  }

  lemma EntryRoundTrip(e: Checkpoint)
    ensures DecodeEntry(EncodeEntry(e)) == e
  {
    U64RoundTrip(e.off, PutU64(ToUint64(e.pos)));
    U64RoundTrip(ToUint64(e.pos), []);
    assert EncodeEntry(e)[8..] == PutU64(ToUint64(e.pos)) + [];
  }

  /** The offset comes first and the position second, eight bytes each, the most significant byte first. */
  lemma EntryLayout(e: Checkpoint)
    ensures BigEndian(EncodeEntry(e)[..8]) == e.off
    ensures BigEndian(EncodeEntry(e)[8..]) == ToUint64(e.pos)
  {
    PutU64IsBigEndian(e.off);
    PutU64IsBigEndian(ToUint64(e.pos));
    assert EncodeEntry(e)[..8] == PutU64(e.off) && EncodeEntry(e)[8..] == PutU64(ToUint64(e.pos));
  }

  lemma BytesRoundTrip(b: seq<byte>)
    requires |b| == ENTRY_BYTES
    ensures EncodeEntry(DecodeEntry(b)) == b
  {
    PutU64RoundTrip(b);
    PutU64RoundTrip(b[8..]);
    assert b == b[..8] + b[8..][..8];
  }

  function EncodeAll(es: seq<Checkpoint>): (b: seq<byte>)
    ensures |b| == |es| * ENTRY_BYTES
  {
    if es == [] then [] else EncodeAll(es[..|es| - 1]) + EncodeEntry(es[|es| - 1])
  }

  // ---------- loading ----------

  /** The bytes of the `i`-th slot. */
  function SlotBytes(file: seq<byte>, i: nat): (b: seq<byte>)
    requires (i + 1) * ENTRY_BYTES <= |file|
    ensures |b| == ENTRY_BYTES
  {
    file[i * ENTRY_BYTES..(i + 1) * ENTRY_BYTES]
  }

  function Slot(file: seq<byte>, i: nat): Checkpoint
    requires (i + 1) * ENTRY_BYTES <= |file|
  {
    DecodeEntry(SlotBytes(file, i))
  }

  /** All whole slots; a torn tail is ignored. */
  function Slots(file: seq<byte>): (es: seq<Checkpoint>)
    ensures |es| == |file| / ENTRY_BYTES
  {
    seq(|file| / ENTRY_BYTES, i requires 0 <= i < |file| / ENTRY_BYTES => Slot(file, i))
  }

  /** Strictly above in both columns. */
  predicate Above(a: Checkpoint, b: Checkpoint) {
    a.off > b.off && a.pos > b.pos
  }

  ghost predicate StrictlyRising(es: seq<Checkpoint>) {
    forall i, j :: 0 <= i < j < |es| ==> es[i].off < es[j].off && es[i].pos < es[j].pos
  }

  /** How many entries loading keeps, given that it has kept `i` so far. */
  function RiseFrom(es: seq<Checkpoint>, i: nat): (k: nat)
    requires i <= |es|
    ensures i <= k <= |es|
    decreases |es| - i
  {
    if i == |es| || (i > 0 && !Above(es[i], es[i - 1])) then i else RiseFrom(es, i + 1)
  }

  function Kept(file: seq<byte>): (k: nat)
    ensures k <= |Slots(file)| && k * ENTRY_BYTES <= |file|
  {
    RiseFrom(Slots(file), 0)
  }

  function Load(file: seq<byte>): seq<Checkpoint> {
    Slots(file)[..Kept(file)]
  }

  /** What loading leaves of the file. */
  function Healed(file: seq<byte>): seq<byte> {
    file[..Kept(file) * ENTRY_BYTES]
  }

  lemma RisingAppend(es: seq<Checkpoint>, e: Checkpoint)
    requires StrictlyRising(es) && (es != [] ==> Above(e, es[|es| - 1]))
    ensures StrictlyRising(es + [e])
  {
    var all := es + [e];
    forall x, y | 0 <= x < y < |all| ensures Above(all[y], all[x]) {
      if y < |es| {
        assert Above(es[y], es[x]);
      } else if x < |es| - 1 {
        assert Above(es[|es| - 1], es[x]);
      }
    }
  }

  lemma {:induction false} RiseFromStops(es: seq<Checkpoint>, i: nat)
    requires i <= |es| && StrictlyRising(es[..i])
    ensures StrictlyRising(es[..RiseFrom(es, i)])
    ensures var k := RiseFrom(es, i);
            k < |es| ==> 0 < k && !Above(es[k], es[k - 1])
    decreases |es| - i
  {
    if i < |es| && (i == 0 || Above(es[i], es[i - 1])) {
      assert es[..i + 1] == es[..i] + [es[i]];
      RisingAppend(es[..i], es[i]);
      RiseFromStops(es, i + 1);
    }
  }

  lemma RiseIsLongest(es: seq<Checkpoint>, k: nat)
    requires k <= |es|
    ensures StrictlyRising(es[..k]) <==> k <= RiseFrom(es, 0)
  {
    RiseFromStops(es, 0);
    var r := RiseFrom(es, 0);
    if k <= r {
      assert es[..k] == es[..r][..k];
    } else {
      assert es[..k][r] == es[r] && es[..k][r - 1] == es[r - 1];
    }
  }

  /** On any bytes, loading keeps exactly the longest run of whole slots, from the first, that strictly rises in
      offset and position: a shorter run also rises, a longer one does not. */
  lemma LoadKeepsLongest(file: seq<byte>, k: nat)
    requires k <= |Slots(file)|
    ensures StrictlyRising(Slots(file)[..k]) <==> k <= |Load(file)|
  {
    RiseIsLongest(Slots(file), k);
  }

  lemma SlotsOfPrefix(file: seq<byte>, k: nat)
    requires k <= |Slots(file)|
    ensures k * ENTRY_BYTES <= |file|
    ensures Slots(file[..k * ENTRY_BYTES]) == Slots(file)[..k]
  {
    var short := file[..k * ENTRY_BYTES];
    forall i | 0 <= i < k ensures SlotBytes(short, i) == SlotBytes(file, i) {
      assert (i + 1) * ENTRY_BYTES <= k * ENTRY_BYTES;
    }
  }

  /** Loading what loading left behind changes nothing. */
  lemma HealIsIdempotent(file: seq<byte>)
    ensures Load(Healed(file)) == Load(file)
    ensures Healed(Healed(file)) == Healed(file)
  {
    var k, healed := Kept(file), Healed(file);
    SlotsOfPrefix(file, k);
    assert Slots(healed)[..k] == Slots(healed) == Load(file);
    LoadKeepsLongest(file, k);
    LoadKeepsLongest(healed, k);
    assert Kept(healed) == k;
  }

  lemma EncodeAppend(es: seq<Checkpoint>, e: Checkpoint)
    ensures EncodeAll(es + [e]) == EncodeAll(es) + EncodeEntry(e)
  {
    assert (es + [e])[..|es|] == es;
  }

  /** Two files of whole slots with the same slots are the same. */
  lemma SameSlots(a: seq<byte>, b: seq<byte>)
    requires |a| == |b| && |a| % ENTRY_BYTES == 0
    requires forall i {:trigger SlotBytes(a, i)} :: 0 <= i < |a| / ENTRY_BYTES ==> SlotBytes(a, i) == SlotBytes(b, i)
    ensures a == b
  {
    forall x | 0 <= x < |a| ensures a[x] == b[x] {
      var i, r := x / ENTRY_BYTES, x % ENTRY_BYTES;
      assert SlotBytes(a, i)[r] == SlotBytes(b, i)[r];
    }
  }

  /** A file of whole slots is the encoding of what the slots hold. */
  lemma EncodeOfSlots(file: seq<byte>)
    requires |file| % ENTRY_BYTES == 0
    ensures EncodeAll(Slots(file)) == file
  {
    var es := Slots(file);
    forall i | 0 <= i < |file| / ENTRY_BYTES ensures SlotBytes(EncodeAll(es), i) == SlotBytes(file, i) {
      SlotOfEncoded(es, i);
      BytesRoundTrip(SlotBytes(file, i));
    }
    SameSlots(EncodeAll(es), file);
  }

  /** The healed file is the encoding of the checkpoints kept. */
  lemma HealedIsEncoding(file: seq<byte>)
    ensures Healed(file) == EncodeAll(Load(file))
  {
    SlotsOfPrefix(file, Kept(file));
    EncodeOfSlots(Healed(file));
  }

  /** Slots of an encoded list are its elements. */
  lemma {:induction false} SlotOfEncoded(es: seq<Checkpoint>, i: nat)
    requires i < |es|
    ensures SlotBytes(EncodeAll(es), i) == EncodeEntry(es[i])
  {
    var init := es[..|es| - 1];
    if i < |init| {
      SlotOfEncoded(init, i);
      assert (i + 1) * ENTRY_BYTES <= |EncodeAll(init)|;
    }
  }

  /** A file written by a healthy run loads back whole. */
  lemma LoadEncoded(es: seq<Checkpoint>)
    requires StrictlyRising(es)
    ensures Load(EncodeAll(es)) == es && Healed(EncodeAll(es)) == EncodeAll(es)
  {
    var file := EncodeAll(es);
    forall i | 0 <= i < |es| ensures Slots(file)[i] == es[i] {
      SlotOfEncoded(es, i);
      EntryRoundTrip(es[i]);
    }
    assert Slots(file)[..|es|] == Slots(file) == es;
    LoadKeepsLongest(file, |es|);
  }

  // ---------- lookup ----------

  /** The last checkpoint at or below `offset`. */
  function Floor(es: seq<Checkpoint>, offset: nat): Option<Checkpoint> {
    if es == [] then None
    else if es[|es| - 1].off <= offset then Some(es[|es| - 1])
    else Floor(es[..|es| - 1], offset)
  }

  lemma {:induction false} FloorIsGreatest(es: seq<Checkpoint>, offset: nat)
    requires StrictlyRising(es)
    ensures match Floor(es, offset)
            case None => forall e <- es :: e.off > offset
            case Some(f) => f in es && f.off <= offset && forall e <- es :: e.off <= offset ==> e.off <= f.off
  {
    if es != [] && es[|es| - 1].off > offset {
      FloorIsGreatest(es[..|es| - 1], offset);
      assert es == es[..|es| - 1] + [es[|es| - 1]];
    }
  }

  lemma {:induction false} FloorInside(es: seq<Checkpoint>, offset: nat)
    ensures Floor(es, offset).Some? ==> Floor(es, offset).value in es && Floor(es, offset).value.off <= offset
  {
    if es != [] && es[|es| - 1].off > offset {
      FloorInside(es[..|es| - 1], offset);
    }
  }

  // ---------- recording ----------

  /** The store: checkpoints, and records seen since the last one. The index file is their encoding. */
  datatype Store = Store(es: seq<Checkpoint>, n: nat)

  /** Unsigned 64-bit arithmetic wraps around. */
  function Wrapped(n: nat): (u: Uint64)
    ensures n < TWO_64 ==> u == n
  {
    if n < TWO_64 then n else Wrapped(n - TWO_64)
  }

  /** An offset and a position as the source's 64-bit types hold them. */
  function Mark(off: nat, pos: nat): (e: Checkpoint)
    ensures off < TWO_64 && pos < TWO_63 ==> e == Checkpoint(off, pos)
  {
    Checkpoint(Wrapped(off), ToInt64(Wrapped(pos)))
  }

  /** The index file can take one more entry; writing past the largest file position fails. */
  predicate HasRoom(es: seq<Checkpoint>) {
    (|es| + 1) * ENTRY_BYTES < TWO_63
  }

  /** Every nth record leaves a checkpoint. One that cannot be written is forgotten, but starts the count anew. */
  function NoteEntry(nth: nat, s: Store, e: Checkpoint): Store {
    if nth > 0 && s.n + 1 < nth then s.(n := s.n + 1)
    else Store(if HasRoom(s.es) then s.es + [e] else s.es, 0)
  }

  function Note(nth: nat, s: Store, off: nat, pos: nat): Store {
    NoteEntry(nth, s, Mark(off, pos))
  }

  // ---------- crashes ----------

  /** The index is never fsynced: after a crash each slot of what is left holds the entry written there or
      zeros, and a torn tail shorter than a slot may follow. */
  ghost predicate CrashImage(es: seq<Checkpoint>, file: seq<byte>) {
    && |file| / ENTRY_BYTES <= |es|
    && forall i {:trigger SlotBytes(file, i)} :: 0 <= i < |file| / ENTRY_BYTES ==>
         (SlotBytes(file, i) == EncodeEntry(es[i]) || SlotBytes(file, i) == Zeros(ENTRY_BYTES))
  }

  lemma ZeroSlot()
    ensures DecodeEntry(Zeros(ENTRY_BYTES)) == Checkpoint(0, 0)
  {
  }

  /** Every checkpoint loaded from a crashed index was really written, or is the first slot read as (0, 0). */
  lemma LoadAfterCrash(es: seq<Checkpoint>, file: seq<byte>, i: nat)
    requires CrashImage(es, file) && i < |Load(file)|
    ensures i < |es|
    ensures Load(file)[i] == es[i] || (i == 0 && Load(file)[0] == Checkpoint(0, 0))
  {
    LoadKeepsLongest(file, Kept(file));
    EntryRoundTrip(es[i]);
    ZeroSlot();
    assert SlotBytes(file, i) == EncodeEntry(es[i]) || SlotBytes(file, i) == Zeros(ENTRY_BYTES);
    if i > 0 {
      assert Above(Load(file)[i], Load(file)[0]);
    }
  }
}
