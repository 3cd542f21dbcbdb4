/** The in-memory store of screenshot captures (internal/screenshot/store.go). */
module CaptureStore {
  import opened Common
  import opened AreaAverage
  import opened ScreenshotSplit

  const TTL := 10 * 60 * 1_000_000_000 // nanoseconds
  const MAX_CAPTURES := 32
  const MAX_STORE_BYTES := 64 * 1024 * 1024

  type Id = string

  datatype StoreFault = Unavailable | BadSegment | NoCapacity

  datatype Entry = Entry(owner: string, url: string, title: string, expires: int, capture: Capture, bytes: nat)

  datatype Segment = Segment(id: Id, url: string, title: string, expires: int, number: int, segments: nat,
                             pageWidth: int, pageHeight: int, capturedHeight: int,
                             truncated: bool, horizontalTruncated: bool, tile: Tile)

  function SegmentOf(id: Id, e: Entry, number: int): Segment
    requires 1 <= number <= |e.capture.tiles|
  {
    var c := e.capture;
    Segment(id, e.url, e.title, e.expires, number, |c.tiles|, c.pageWidth, c.pageHeight, c.capturedHeight,
            c.pageHeight > c.capturedHeight, c.pageWidth > WIDTH, c.tiles[number - 1])
  }

  // ---- what a capture weighs ----

  predicate Storable(t: Tile) { 0 < |t.data| <= MAX_IMAGE_BYTES }

  function TileBytes(tiles: seq<Tile>): nat {
    if |tiles| == 0 then 0 else TileBytes(tiles[..|tiles| - 1]) + |tiles[|tiles| - 1].data|
  }

  /** The checks before the lock: the weight of a capture, or the fault. */
  function Weigh(capture: Option<Capture>): Result<nat, StoreFault> {
    if capture.None? || !(1 <= |capture.value.tiles| <= MAX_SEGMENTS) then Err(BadSegment)
    else if exists i :: 0 <= i < |capture.value.tiles| && !Storable(capture.value.tiles[i]) then Err(NoCapacity)
    else Ok(TileBytes(capture.value.tiles))
  }

  /** Lines 71-80. */
  method WeighTiles(capture: Option<Capture>) returns (r: Result<nat, StoreFault>)
    ensures r == Weigh(capture)
  {
    if capture.None? || |capture.value.tiles| < 1 || |capture.value.tiles| > MAX_SEGMENTS {
      return Err(BadSegment);
    }
    var tiles := capture.value.tiles;
    var n: nat := 0;
    for i := 0 to |tiles|
      invariant n == TileBytes(tiles[..i])
      invariant forall j :: 0 <= j < i ==> Storable(tiles[j])
    {
      if |tiles[i].data| > MAX_IMAGE_BYTES || |tiles[i].data| == 0 {
        assert !Storable(tiles[i]);
        return Err(NoCapacity);
      }
      assert tiles[..i + 1][..i] == tiles[..i];
      n := n + |tiles[i].data|;
    }
    assert tiles[..|tiles|] == tiles;
    r := Ok(n);
  }

  /** What the tiling produces is refused only when the encoder yields an empty image. */
  lemma SplitIsStorable(jpeg: Encoder, rows: Rows, height: nat, pageWidth: int, pageHeight: int, capture: Capture)
    requires Rect(rows, WIDTH, height) && 1 <= height <= MAX_HEIGHT
    requires Captures(jpeg, rows, height, pageWidth, pageHeight, Ok(capture))
    ensures Weigh(Some(capture)).Ok? <==> forall i :: 0 <= i < |capture.tiles| ==> |capture.tiles[i].data| > 0
  {
    SplitIsBounded(jpeg, rows, height, pageWidth, pageHeight, Ok(capture));
    var ts := capture.tiles;
    assert forall i :: 0 <= i < |ts| ==> (Storable(ts[i]) <==> |ts[i].data| > 0);
  }

  // ---- sums over the entries ----

  ghost function Sum(m: map<Id, Entry>): nat {
    if m == map[] then 0 else
      var id :| id in m;
      m[id].bytes + Sum(m - {id})
  }

  lemma {:induction false} SumWithout(m: map<Id, Entry>, id: Id)
    requires id in m
    ensures Sum(m) == m[id].bytes + Sum(m - {id})
    decreases m
  {
    var first :| first in m && Sum(m) == m[first].bytes + Sum(m - {first});
    if first != id {
      SumWithout(m - {first}, id);
      SumWithout(m - {id}, first);
      assert m - {first} - {id} == m - {id} - {first};
    }
  }

  lemma SumWith(m: map<Id, Entry>, id: Id, e: Entry)
    requires id !in m
    ensures Sum(m[id := e]) == Sum(m) + e.bytes && |m[id := e]| == |m| + 1
  {
    SumWithout(m[id := e], id);
    assert m[id := e] - {id} == m;
    assert m[id := e].Keys == m.Keys + {id};
  }

  lemma {:induction false} SumOfPart(part: map<Id, Entry>, m: map<Id, Entry>)
    requires forall id :: id in part ==> id in m && part[id] == m[id]
    ensures Sum(part) <= Sum(m) && |part| <= |m|
    decreases m
  {
    if part == map[] {
      assert |part| == 0;
    } else {
      var id :| id in part;
      SumWithout(part, id);
      SumWithout(m, id);
      assert (part - {id}).Keys == part.Keys - {id} && (m - {id}).Keys == m.Keys - {id};
      SumOfPart(part - {id}, m - {id});
    }
  }

  // ---- the store as a value ----

  datatype State = State(entries: map<Id, Entry>, bytes: int)

  /** One clock reading per inspected entry. */
  type Readings = Id -> int

  function Live(entries: map<Id, Entry>, at: Readings): map<Id, Entry> {
    map id | id in entries && at(id) < entries[id].expires :: entries[id]
  }

  ghost function Reaped(s: State, at: Readings): State {
    var entries := Live(s.entries, at);
    State(entries, s.bytes - (Sum(s.entries) - Sum(entries)))
  }

  ghost predicate Sound(s: State) {
    s.bytes == Sum(s.entries) <= MAX_STORE_BYTES && |s.entries| <= MAX_CAPTURES
  }

  /**
   * A call: from and upto bound the clock readings it takes, at gives the reading taken
   * when each entry is inspected, and Add stamps its entry with upto.
   */
  datatype Op =
    | Add(owner: string, url: string, title: string, capture: Option<Capture>, id: Id, from: int, at: Readings, upto: int)
    | Get(owner: string, id: Id, number: int, from: int, at: Readings, upto: int)
    | Reap(from: int, at: Readings, upto: int)

  datatype Out = Served(segment: Segment) | Refused(fault: StoreFault) | Done

  function NewEntry(op: Op, bytes: nat): Entry
    requires op.Add? && op.capture.Some?
  {
    Entry(op.owner, op.url, op.title, op.upto + TTL, op.capture.value, bytes)
  }

  predicate Roomy(s: State, n: nat) { |s.entries| < MAX_CAPTURES && s.bytes + n <= MAX_STORE_BYTES }

  function Lookup(entries: map<Id, Entry>, owner: string, id: Id, number: int): Out {
    if id !in entries || entries[id].owner != owner then Refused(Unavailable)
    else if number < 1 || number > |entries[id].capture.tiles| then Refused(BadSegment)
    else Served(SegmentOf(id, entries[id], number))
  }

  ghost function Next(s: State, op: Op): State {
    match op
    case Add(_, _, _, capture, id, _, at, _) =>
      if Weigh(capture).Err? then s else
        var reaped, n := Reaped(s, at), Weigh(capture).value;
        if !Roomy(reaped, n) then reaped else State(reaped.entries[id := NewEntry(op, n)], reaped.bytes + n)
    case Get(_, _, _, _, at, _) => Reaped(s, at)
    case Reap(_, at, _) => Reaped(s, at)
  }

  ghost function Answer(s: State, op: Op): Out {
    match op
    case Add(_, _, _, capture, id, _, at, _) =>
      if Weigh(capture).Err? then Refused(Weigh(capture).error)
      else if !Roomy(Reaped(s, at), Weigh(capture).value) then Refused(NoCapacity)
      else Served(SegmentOf(id, NewEntry(op, Weigh(capture).value), 1))
    case Get(owner, id, number, _, at, _) => Lookup(Reaped(s, at).entries, owner, id, number)
    case Reap(_, _, _) => Done
  }

  const EMPTY := State(map[], 0)

  ghost function After(ops: seq<Op>, k: nat): State
    requires k <= |ops|
  {
    if k == 0 then EMPTY else Next(After(ops, k - 1), ops[k - 1])
  }

  /** What call k answers. */
  ghost function Output(ops: seq<Op>, k: nat): Out
    requires k < |ops|
  {
    Answer(After(ops, k), ops[k])
  }

  // ---- the runs considered ----

  ghost predicate ReadsWithin(op: Op) {
    op.from <= op.upto && forall id :: op.from <= op.at(id) <= op.upto
  }

  /** The clock never runs backwards from call to call, and every Add draws an id of its own. */
  ghost predicate Proper(ops: seq<Op>) {
    && (forall k :: 0 <= k < |ops| ==> ReadsWithin(ops[k]))
    && (forall j, k :: 0 <= j < k < |ops| ==> ops[j].upto <= ops[k].from)
    && (forall j, k :: 0 <= j < k < |ops| && ops[j].Add? && ops[k].Add? ==> ops[j].id != ops[k].id)
  }

  // ---- the store that forgets nothing ----

  /** Every capture accepted by the first k calls, whether or not it has expired since. */
  ghost function Ledger(ops: seq<Op>, k: nat): map<Id, Entry>
    requires k <= |ops|
  {
    if k == 0 then map[] else Record(Ledger(ops, k - 1), ops[k - 1])
  }

  ghost function Record(kept: map<Id, Entry>, op: Op): map<Id, Entry> {
    if op.Add? && LedgerAnswer(kept, op).Served? then kept[op.id := NewEntry(op, Weigh(op.capture).value)] else kept
  }

  /** Answers from the ledger: what is expired at its reading does not exist. */
  ghost function LedgerAnswer(kept: map<Id, Entry>, op: Op): Out {
    match op
    case Add(_, _, _, capture, id, _, at, _) =>
      if Weigh(capture).Err? then Refused(Weigh(capture).error)
      else
        var live, n := Live(kept, at), Weigh(capture).value;
        if |live| < MAX_CAPTURES && Sum(live) + n <= MAX_STORE_BYTES then Served(SegmentOf(id, NewEntry(op, n), 1))
        else Refused(NoCapacity)
    case Get(owner, id, number, _, at, _) => Lookup(Live(kept, at), owner, id, number)
    case Reap(_, _, _) => Done
  }

  /** What is missing from the store expired before the last reading so far. */
  ghost predicate Follows(s: State, kept: map<Id, Entry>, clock: Option<int>) {
    && (forall id :: id in s.entries ==> id in kept && s.entries[id] == kept[id])
    && (forall id :: id in kept && id !in s.entries ==> clock.Some? && kept[id].expires <= clock.value)
  }

  ghost function Clock(ops: seq<Op>, k: nat): Option<int>
    requires k <= |ops|
  {
    if k == 0 then None else Some(ops[k - 1].upto)
  }

  /** Reaping leaves the sum right and loses nothing that is live. */
  lemma ReapKeeps(s: State, at: Readings)
    requires Sound(s)
    ensures Sound(Reaped(s, at))
  {
    SumOfPart(Live(s.entries, at), s.entries);
  }

  /** A store that follows the ledger has the same live entries at any later readings. */
  lemma SameLive(s: State, kept: map<Id, Entry>, clock: Option<int>, from: int, at: Readings)
    requires Follows(s, kept, clock) && (clock.Some? ==> clock.value <= from) && forall id :: from <= at(id)
    ensures Live(s.entries, at) == Live(kept, at)
  {
    forall id | id in kept && at(id) < kept[id].expires ensures id in s.entries {
      assert from <= at(id);
    }
  }

  lemma SameAnswer(s: State, kept: map<Id, Entry>, clock: Option<int>, op: Op)
    requires Sound(s) && Follows(s, kept, clock) && ReadsWithin(op) && (clock.Some? ==> clock.value <= op.from)
    ensures Answer(s, op) == LedgerAnswer(kept, op)
  {
    SameLive(s, kept, clock, op.from, op.at);
  }

  lemma SoundStep(s: State, op: Op)
    requires Sound(s) && (op.Add? ==> op.id !in s.entries)
    ensures Sound(Next(s, op))
  {
    ReapKeeps(s, op.at);
    if op.Add? && Answer(s, op).Served? {
      SumWith(Reaped(s, op.at).entries, op.id, NewEntry(op, Weigh(op.capture).value));
    }
  }

  /** One call keeps the store in step with the ledger. */
  lemma StepFollows(s: State, kept: map<Id, Entry>, clock: Option<int>, op: Op)
    requires Follows(s, kept, clock) && ReadsWithin(op) && (clock.Some? ==> clock.value <= op.from)
    requires op.Add? ==> op.id !in kept
    requires Answer(s, op) == LedgerAnswer(kept, op)
    ensures Follows(Next(s, op), Record(kept, op), Some(op.upto))
  {
  }

  /** Ids in the ledger were drawn by earlier calls. */
  lemma {:induction false} LedgerIds(ops: seq<Op>, k: nat, id: Id)
    requires k <= |ops| && id in Ledger(ops, k)
    ensures exists i :: 0 <= i < k && ops[i].Add? && ops[i].id == id
  {
    var op := ops[k - 1];
    if !(op.Add? && op.id == id) {
      LedgerIds(ops, k - 1, id);
    }
  }

  ghost predicate InStep(ops: seq<Op>, k: nat)
    requires k <= |ops|
  {
    Sound(After(ops, k)) && Follows(After(ops, k), Ledger(ops, k), Clock(ops, k))
  }

  /** After every call the store is sound and in step with the ledger. */
  lemma {:induction false} RunFollows(ops: seq<Op>, k: nat)
    requires Proper(ops) && k <= |ops|
    ensures InStep(ops, k)
  {
    if k > 0 {
      RunFollows(ops, k - 1);
      StepAt(ops, k - 1);
    }
  }

  lemma StepAt(ops: seq<Op>, k: nat)
    requires Proper(ops) && k < |ops| && InStep(ops, k)
    ensures Output(ops, k) == LedgerAnswer(Ledger(ops, k), ops[k])
    ensures InStep(ops, k + 1)
  {
    var op := ops[k];
    if op.Add? && op.id in Ledger(ops, k) {
      LedgerIds(ops, k, op.id);
      assert false;
    }
    SameAnswer(After(ops, k), Ledger(ops, k), Clock(ops, k), op);
    SoundStep(After(ops, k), op);
    StepFollows(After(ops, k), Ledger(ops, k), Clock(ops, k), op);
  }

  // ---- what callers can see ----

  /** The store answers every call as the ledger would: when entries were reaped cannot be seen. */
  lemma AnswersAreTheLedgers(ops: seq<Op>, k: nat)
    requires Proper(ops) && k < |ops|
    ensures Output(ops, k) == LedgerAnswer(Ledger(ops, k), ops[k])
  {
    RunFollows(ops, k);
    StepAt(ops, k);
  }

  /** The byte count is the sum over the entries, and both limits hold after every call. */
  lemma LimitsHold(ops: seq<Op>, k: nat)
    requires Proper(ops) && k <= |ops|
    ensures After(ops, k).bytes == Sum(After(ops, k).entries) <= MAX_STORE_BYTES
    ensures |After(ops, k).entries| <= MAX_CAPTURES
  {
    RunFollows(ops, k);
  }

  /** A call removes nothing that is unexpired at its reading, and accepting a capture evicts nothing. */
  lemma NothingUnexpiredIsLost(ops: seq<Op>, k: nat, id: Id)
    requires Proper(ops) && k < |ops| && id in After(ops, k).entries && ops[k].at(id) < After(ops, k).entries[id].expires
    ensures id in After(ops, k + 1).entries && After(ops, k + 1).entries[id] == After(ops, k).entries[id]
  {
    RunFollows(ops, k);
    if ops[k].Add? && ops[k].id == id {
      LedgerIds(ops, k, id);
      assert false;
    }
  }

  ghost predicate Accepted(ops: seq<Op>, i: nat, id: Id)
    requires i < |ops|
  {
    ops[i].Add? && ops[i].id == id && Output(ops, i).Served?
  }

  lemma RecordAdds(kept: map<Id, Entry>, op: Op)
    requires op.Add? && LedgerAnswer(kept, op).Served?
    ensures Weigh(op.capture).Ok? && op.id in Record(kept, op)
    ensures Record(kept, op)[op.id] == NewEntry(op, Weigh(op.capture).value)
  {}

  lemma {:induction false} LedgerIsWhatWasAccepted(ops: seq<Op>, k: nat, i: nat)
    requires Proper(ops) && i < k <= |ops| && ops[i].Add? && Accepted(ops, i, ops[i].id)
    ensures ops[i].id in Ledger(ops, k) && Weigh(ops[i].capture).Ok?
    ensures Ledger(ops, k)[ops[i].id] == NewEntry(ops[i], Weigh(ops[i].capture).value)
    decreases k
  {
    if i < k - 1 {
      LedgerIsWhatWasAccepted(ops, k - 1, i);
    } else {
      AnswersAreTheLedgers(ops, i);
      RecordAdds(Ledger(ops, i), ops[i]);
    }
  }

  lemma {:induction false} LedgerWasAccepted(ops: seq<Op>, k: nat, id: Id) returns (i: nat)
    requires Proper(ops) && k <= |ops| && id in Ledger(ops, k)
    ensures i < k && Accepted(ops, i, id)
    decreases k
  {
    var kept, op := Ledger(ops, k - 1), ops[k - 1];
    if op.Add? && op.id == id && LedgerAnswer(kept, op).Served? {
      i := k - 1;
      AnswersAreTheLedgers(ops, i);
    } else {
      i := LedgerWasAccepted(ops, k - 1, id);
    }
  }

  /** Call i accepted, for this owner, a capture that call k reads before its time to live is over. */
  ghost predicate Fresh(ops: seq<Op>, i: nat, k: nat)
    requires i < |ops| && k < |ops| && ops[k].Get?
  {
    Accepted(ops, i, ops[k].id) && ops[i].owner == ops[k].owner && ops[k].at(ops[k].id) < ops[i].upto + TTL
  }

  /**
   * Get serves exactly the captures the owner added less than the time to live ago, when the
   * segment number is in range; it serves the stored tile, and otherwise the two faults are told apart
   * only for the owner of a live capture.
   */
  lemma GetSeesExactlyTheFresh(ops: seq<Op>, k: nat)
    requires Proper(ops) && k < |ops| && ops[k].Get?
    ensures Output(ops, k) != Refused(Unavailable) <==> exists i :: 0 <= i < k && Fresh(ops, i, k)
    ensures forall i :: 0 <= i < k && Fresh(ops, i, k) ==>
              var c, number := ops[i].capture.value, ops[k].number;
              Output(ops, k) ==
                if 1 <= number <= |c.tiles| then Served(SegmentOf(ops[k].id, NewEntry(ops[i], TileBytes(c.tiles)), number))
                else Refused(BadSegment)
  {
    AnswersAreTheLedgers(ops, k);
    var kept, op := Ledger(ops, k), ops[k];
    if op.id in kept {
      var i := LedgerWasAccepted(ops, k, op.id);
      LedgerIsWhatWasAccepted(ops, k, i);
      assert Output(ops, k) != Refused(Unavailable) <==> Fresh(ops, i, k);
      assert forall j :: 0 <= j < k && Fresh(ops, j, k) ==> j == i;
    } else {
      forall j | 0 <= j < k && Fresh(ops, j, k) ensures false {
        LedgerIsWhatWasAccepted(ops, k, j);
      }
    }
  }

  /** Segment n of a capture: its own tile, and what the capture says about the page. */
  predicate Depicts(seg: Segment, c: Capture, n: int) {
    && 1 <= n <= |c.tiles| && seg.number == n && seg.segments == |c.tiles| && seg.tile == c.tiles[n - 1]
    && seg.pageWidth == c.pageWidth && seg.pageHeight == c.pageHeight && seg.capturedHeight == c.capturedHeight
    && (seg.truncated <==> c.pageHeight > c.capturedHeight) && (seg.horizontalTruncated <==> c.pageWidth > 1280)
  }

  /** What Get serves is the requested tile of what was added, under its id and address, and it expires ten minutes after it was added. */
  lemma ServedIsWhatWasAdded(ops: seq<Op>, i: nat, k: nat)
    requires Proper(ops) && i < k < |ops| && ops[k].Get? && Fresh(ops, i, k)
    requires ops[i].capture.Some? && 1 <= ops[k].number <= |ops[i].capture.value.tiles|
    ensures Output(ops, k).Served?
    ensures var seg := Output(ops, k).segment;
            && Depicts(seg, ops[i].capture.value, ops[k].number)
            && seg.id == ops[i].id == ops[k].id && seg.url == ops[i].url && seg.title == ops[i].title
            && seg.expires == ops[i].upto + 600_000_000_000
  {
    GetSeesExactlyTheFresh(ops, k);
  }

  /** An accepted Add answers with the first segment. */
  lemma AddServesTheFirst(ops: seq<Op>, i: nat)
    requires i < |ops| && ops[i].Add? && Output(ops, i).Served?
    ensures ops[i].capture.Some? && Depicts(Output(ops, i).segment, ops[i].capture.value, 1)
    ensures Output(ops, i).segment.id == ops[i].id && Output(ops, i).segment.expires == ops[i].upto + 600_000_000_000
  {}

  function AllData(tiles: seq<Tile>): Data {
    if tiles == [] then [] else AllData(tiles[..|tiles| - 1]) + tiles[|tiles| - 1].data
  }

  lemma {:induction false} WeightIsTheData(tiles: seq<Tile>)
    ensures TileBytes(tiles) == |AllData(tiles)|
  {
    if tiles != [] {
      WeightIsTheData(tiles[..|tiles| - 1]);
    }
  }

  /** The bytes an entry is charged are the bytes of its images. */
  lemma EntriesWeighTheirData(ops: seq<Op>, k: nat, id: Id)
    requires Proper(ops) && k <= |ops| && id in After(ops, k).entries
    ensures After(ops, k).entries[id].bytes == |AllData(After(ops, k).entries[id].capture.tiles)|
  {
    RunFollows(ops, k);
    var i := LedgerWasAccepted(ops, k, id);
    LedgerIsWhatWasAccepted(ops, k, i);
    WeightIsTheData(ops[i].capture.value.tiles);
  }

  function Without(ops: seq<Op>, r: nat): seq<Op>
    requires r < |ops|
  {
    ops[..r] + ops[r + 1..]
  }

  lemma {:induction false} LedgerBefore(ops: seq<Op>, ops': seq<Op>, k: nat)
    requires k <= |ops| && k <= |ops'| && forall i :: 0 <= i < k ==> ops[i] == ops'[i]
    ensures Ledger(ops, k) == Ledger(ops', k)
  {
    if k > 0 {
      LedgerBefore(ops, ops', k - 1);
    }
  }

  lemma {:induction false} LedgerWithout(ops: seq<Op>, r: nat, k: nat)
    requires r < |ops| && ops[r].Reap? && k <= |ops|
    ensures Ledger(Without(ops, r), if k <= r then k else k - 1) == Ledger(ops, k)
    decreases k
  {
    if k <= r {
      LedgerBefore(ops, Without(ops, r), k);
    } else if k == r + 1 {
      LedgerBefore(ops, Without(ops, r), r);
    } else {
      LedgerWithout(ops, r, k - 1);
      assert Without(ops, r)[k - 2] == ops[k - 1];
    }
  }

  lemma SameOutput(ops: seq<Op>, k: nat, ops': seq<Op>, k': nat)
    requires Proper(ops) && Proper(ops') && k < |ops| && k' < |ops'|
    requires Ledger(ops, k) == Ledger(ops', k') && ops[k] == ops'[k']
    ensures Output(ops, k) == Output(ops', k')
  {
    AnswersAreTheLedgers(ops, k);
    AnswersAreTheLedgers(ops', k');
  }

  /** Leaving out one call of the reaper changes no other answer. */
  lemma ReapIsInvisible(ops: seq<Op>, r: nat, k: nat)
    requires Proper(ops) && r < |ops| && ops[r].Reap? && k < |ops| && k != r
    ensures Proper(Without(ops, r))
    ensures Output(ops, k) == Output(Without(ops, r), if k < r then k else k - 1)
  {
    LedgerWithout(ops, r, k);
    SameOutput(ops, k, Without(ops, r), if k < r then k else k - 1);
  }

  // ---- the store as an object ----

  class Store {
    var entries: map<Id, Entry>
    var bytes: int

    ghost function Value(): State reads this { State(entries, bytes) }

    constructor ()
      ensures Value() == EMPTY
    {
      entries, bytes := map[], 0;
    }

    /** Lines 113-114. */
    method Evict(id: Id)
      requires id in entries && bytes == Sum(entries)
      modifies this
      ensures entries == old(entries) - {id} && bytes == Sum(entries)
    {
      SumWithout(entries, id);
      bytes := bytes - entries[id].bytes;
      entries := entries - {id};
    }

    /** Lines 110-117. */
    method ReapLocked(at: Readings)
      requires Sound(Value())
      modifies this
      ensures Value() == Reaped(old(Value()), at)
    {
      ghost var start := entries;
      var todo := entries.Keys;
      while todo != {}
        invariant todo <= entries.Keys
        invariant bytes == Sum(entries)
        invariant forall id :: id in entries ==> id in start && entries[id] == start[id]
        invariant forall id :: id in start && id !in todo ==> (id in entries <==> at(id) < start[id].expires)
        invariant forall id :: id in todo ==> id in start && entries[id] == start[id]
        decreases |todo|
      {
        var id :| id in todo;
        todo := todo - {id};
        var e := entries[id];
        if !(at(id) < e.expires) {
          Evict(id);
        }
      }
      assert entries == Live(start, at);
    }

    /** Lines 70-91. */
    method Add(op: Op) returns (r: Out)
      requires op.Add? && Sound(Value())
      modifies this
      ensures Value() == Next(old(Value()), op) && r == Answer(old(Value()), op)
    {
      var weighed := WeighTiles(op.capture);
      if weighed.Err? {
        return Refused(weighed.error);
      }
      var n := weighed.value;
      ReapLocked(op.at);
      if |entries| >= MAX_CAPTURES || bytes + n > MAX_STORE_BYTES {
        return Refused(NoCapacity);
      }
      var e := NewEntry(op, n);
      entries := entries[op.id := e];
      bytes := bytes + n;
      r := Served(SegmentOf(op.id, e, 1));
    }

    /** Lines 93-106. */
    method Get(op: Op) returns (r: Out)
      requires op.Get? && Sound(Value())
      modifies this
      ensures Value() == Next(old(Value()), op) && r == Answer(old(Value()), op)
    {
      ReapLocked(op.at);
      if op.id !in entries || entries[op.id].owner != op.owner {
        return Refused(Unavailable);
      }
      var e := entries[op.id];
      if op.number < 1 || op.number > |e.capture.tiles| {
        return Refused(BadSegment);
      }
      r := Served(SegmentOf(op.id, e, op.number));
    }

    /** Line 108. */
    method Reap(op: Op)
      requires op.Reap? && Sound(Value())
      modifies this
      ensures Value() == Next(old(Value()), op)
    {
      ReapLocked(op.at);
    }
  }
}
