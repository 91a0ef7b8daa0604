/**
 Incremental log tailing (plugins/logfile/logfile.go). A poll sees an atomic snapshot
 of the file; the persisted state is the byte offset, the inode and a fingerprint of
 the first bytes.
 */
module LogTail {
  import opened Common

  const FINGERPRINT_SIZE: nat := 256
  const DEFAULT_MAX_READ: nat := 1048576

  datatype FileState = FileState(offset: nat, inode: nat, fingerprint: string)

  /** What stat, open and read see during one poll. */
  datatype Snapshot = Snapshot(content: seq<byte>, inode: nat)

  datatype Config = Config(maxReadBytes: nat, fromEnd: bool) {
    predicate Valid() { maxReadBytes > 0 }
  }

  // ---------------------------------------------------------------- fingerprints

  function HexDigit(n: int): (c: char)
    requires 0 <= n < 16
  {
    "0123456789abcdef"[n]
  }

  function Hex(bs: seq<byte>): (s: string)
    ensures |s| == 2 * |bs|
  {
    if bs == [] then ""
    else Hex(bs[..|bs| - 1]) + [HexDigit(bs[|bs| - 1] / 16), HexDigit(bs[|bs| - 1] % 16)]
  }

  function Fingerprint(content: seq<byte>): (s: string) {
    Hex(content[..Min(FINGERPRINT_SIZE, |content|)])
  }

  function FingerprintsMatch(current: string, stored: string): (r: bool) {
    if current == "" || stored == "" then current == stored
    else if |current| < |stored| then false
    else current[..|stored|] == stored
  }

  lemma {:induction false} HexTake(bs: seq<byte>, k: nat)
    requires k <= |bs|
    ensures Hex(bs)[..2 * k] == Hex(bs[..k])
  {
    if k == |bs| {
      assert bs[..k] == bs;
    } else {
      HexTake(bs[..|bs| - 1], k);
      assert bs[..|bs| - 1][..k] == bs[..k];
      assert Hex(bs)[..2 * k] == Hex(bs[..|bs| - 1])[..2 * k];
    }
  }

  lemma HexDigitInjective(a: int, b: int)
    requires 0 <= a < 16 && 0 <= b < 16 && HexDigit(a) == HexDigit(b)
    ensures a == b
  {
  }

  lemma {:induction false} HexInjective(a: seq<byte>, b: seq<byte>)
    requires Hex(a) == Hex(b)
    ensures a == b
  {
    if a != [] {
      var n := |a| - 1;
      HexTake(a, n);
      HexTake(b, n);
      HexInjective(a[..n], b[..n]);
      HexLast(a);
      HexLast(b);
      HexDigitInjective(a[n] / 16, b[n] / 16);
      HexDigitInjective(a[n] % 16, b[n] % 16);
      SameBySnoc(a, b);
    }
  }

  lemma SameBySnoc(a: seq<byte>, b: seq<byte>)
    requires |a| == |b| > 0 && a[..|a| - 1] == b[..|a| - 1] && a[|a| - 1] == b[|a| - 1]
    ensures a == b
  {
    assert a == a[..|a| - 1] + [a[|a| - 1]];
  }

  lemma HexLast(bs: seq<byte>)
    requires bs != []
    ensures var n := |bs| - 1;
      Hex(bs)[2 * n] == HexDigit(bs[n] / 16) && Hex(bs)[2 * n + 1] == HexDigit(bs[n] % 16)
  {
  }

  /** The directional comparison of hex strings is the prefix order on the bytes. */
  lemma FingerprintsMatchIsPrefix(current: seq<byte>, stored: seq<byte>)
    ensures FingerprintsMatch(Hex(current), Hex(stored))
       <==> stored <= current && (stored == [] ==> current == [])
  {
    if |stored| <= |current| {
      HexTake(current, |stored|);
      if FingerprintsMatch(Hex(current), Hex(stored)) && stored != [] && current != [] {
        HexInjective(current[..|stored|], stored);
      }
    }
  }

  // ---------------------------------------------------------------- one poll

  /** bytes.LastIndexByte(buf, '\n'). */
  function LastNewline(buf: seq<byte>): (k: int)
    ensures -1 <= k < |buf|
    ensures k >= 0 ==> buf[k] == LF
    ensures forall i :: k < i < |buf| ==> buf[i] != LF
  {
    if buf == [] then -1
    else if buf[|buf| - 1] == LF then |buf| - 1
    else LastNewline(buf[..|buf| - 1])
  }

  function Rotated(st: FileState, snap: Snapshot): (r: bool) {
    || (snap.inode != st.inode && snap.inode != 0 && st.inode != 0)
    || !FingerprintsMatch(Fingerprint(snap.content), st.fingerprint)
    || |snap.content| < st.offset
  }

  /** The state once rotation has been dealt with and before anything is read. */
  function Synced(cfg: Config, prev: Option<FileState>, snap: Snapshot): (st: FileState)
    ensures st.offset <= |snap.content|
  {
    var fp := Fingerprint(snap.content);
    match prev
    case None => FileState(if cfg.fromEnd then |snap.content| else 0, snap.inode, fp)
    case Some(st) =>
      if Rotated(st, snap) then FileState(0, snap.inode, fp)
      else if |fp| > |st.fingerprint| then st.(fingerprint := fp)
      else st
  }

  function Window(cfg: Config, content: seq<byte>, offset: nat): (buf: seq<byte>)
    requires offset <= |content|
  {
    content[offset..offset + Min(|content| - offset, cfg.maxReadBytes)]
  }

  /** The bytes one poll consumes from `offset` on: whole lines, or a full window
      that holds no newline at all. */
  function Block(cfg: Config, content: seq<byte>, offset: nat): (b: seq<byte>)
    requires offset <= |content|
    ensures offset + |b| <= |content| && b == content[offset..offset + |b|]
    ensures |b| <= cfg.maxReadBytes
  {
    var buf := Window(cfg, content, offset);
    var k := LastNewline(buf);
    if k >= 0 then buf[..k + 1]
    else if |buf| < cfg.maxReadBytes then []
    else buf
  }

  datatype PollResult = PollResult(state: FileState, block: seq<byte>)

  function Poll(cfg: Config, prev: Option<FileState>, snap: Snapshot): (p: PollResult) {
    var st := Synced(cfg, prev, snap);
    var b := Block(cfg, snap.content, st.offset);
    PollResult(st.(offset := st.offset + |b|), b)
  }

  // ---------------------------------------------------------------- lines

  /** strings.Split(text, "\n"). */
  function Split(text: seq<byte>): (parts: seq<seq<byte>>)
    ensures |parts| >= 1
  {
    if text == [] then [[]]
    else Prepend(text[0], Split(text[1..]))
  }

  function Prepend(c: byte, parts: seq<seq<byte>>): (r: seq<seq<byte>>)
    requires |parts| >= 1
    ensures |r| == |parts| + if c == LF then 1 else 0
  {
    if c == LF then [[]] + parts else [[c] + parts[0]] + parts[1..]
  }

  /** Split without the empty piece a trailing newline leaves behind. */
  function Lines(text: seq<byte>): (ls: seq<seq<byte>>) {
    WithoutEmptyEnd(Split(text))
  }

  function WithoutEmptyEnd(parts: seq<seq<byte>>): (r: seq<seq<byte>>) {
    if parts != [] && parts[|parts| - 1] == [] then parts[..|parts| - 1] else parts
  }

  function TrimRightCR(line: seq<byte>): (r: seq<byte>) {
    if line != [] && line[|line| - 1] == CR then TrimRightCR(line[..|line| - 1]) else line
  }

  predicate EndsLine(text: seq<byte>) {
    text == [] || text[|text| - 1] == LF
  }

  lemma {:induction false} SplitAtNewline(a: seq<byte>, b: seq<byte>)
    ensures Split(a + [LF] + b) == Split(a) + Split(b)
  {
    var t := a + [LF] + b;
    if a == [] {
      assert t[1..] == b;
    } else {
      assert t[1..] == a[1..] + [LF] + b;
      SplitAtNewline(a[1..], b);
      PrependConcat(a[0], Split(a[1..]), Split(b));
    }
  }

  lemma PrependConcat(c: byte, parts: seq<seq<byte>>, tail: seq<seq<byte>>)
    requires |parts| >= 1
    ensures Prepend(c, parts + tail) == Prepend(c, parts) + tail
  {
    assert (parts + tail)[1..] == parts[1..] + tail;
  }

  lemma {:induction false} SplitLastEmpty(text: seq<byte>)
    ensures Split(text)[|Split(text)| - 1] == [] <==> EndsLine(text)
  {
    if |text| >= 1 {
      SplitLastEmpty(text[1..]);
      var rest := Split(text[1..]);
      if |text| >= 2 {
        assert text[1..][|text| - 2] == text[|text| - 1];
      }
      if text[0] != LF && |rest| == 1 && |text| >= 2 {
        assert Split(text)[0] != [];
        NoNewlineInSingle(text[1..]);
      }
    }
  }

  lemma {:induction false} NoNewlineInSingle(text: seq<byte>)
    requires |Split(text)| == 1
    ensures forall i :: 0 <= i < |text| ==> text[i] != LF
  {
    if text != [] {
      NoNewlineInSingle(text[1..]);
      assert forall i :: 1 <= i < |text| ==> text[i] == text[1..][i - 1];
    }
  }

  /** Splitting distributes over concatenation exactly at line boundaries. */
  lemma LinesOfConcat(a: seq<byte>, b: seq<byte>)
    requires EndsLine(a)
    ensures Lines(a + b) == Lines(a) + Lines(b)
  {
    if a == [] {
      assert a + b == b;
    } else {
      var first := a[..|a| - 1];
      assert a == first + [LF];
      LinesAfterNewline(first, b);
      LinesOfTerminated(first);
    }
  }

  lemma LinesAfterNewline(a: seq<byte>, b: seq<byte>)
    ensures Lines(a + [LF] + b) == Split(a) + Lines(b)
  {
    SplitAtNewline(a, b);
    StripJoined(Split(a), Split(b));
  }

  lemma StripJoined(a: seq<seq<byte>>, b: seq<seq<byte>>)
    requires b != []
    ensures WithoutEmptyEnd(a + b) == a + WithoutEmptyEnd(b)
  {
  }

  lemma LinesOfTerminated(a: seq<byte>)
    ensures Lines(a + [LF]) == Split(a)
  {
    assert a + [LF] + [] == a + [LF];
    SplitAtNewline(a, []);
  }

  lemma {:induction false} SplitCount(a: seq<byte>, b: seq<byte>)
    ensures |Split(a + b)| == |Split(a)| + |Split(b)| - 1
  {
    if a == [] {
      assert a + b == b;
    } else {
      assert (a + b)[1..] == a[1..] + b;
      SplitCount(a[1..], b);
    }
  }

  /** Cutting inside a line yields one line too many. */
  lemma LinesOfCut(a: seq<byte>, b: seq<byte>)
    requires !EndsLine(a) && b != []
    ensures |Lines(a + b)| == |Lines(a)| + |Lines(b)| - 1
  {
    SplitCount(a, b);
    LineCount(a);
    LineCount(b);
    LineCount(a + b);
    SameEnd(a, b);
  }

  lemma SameEnd(a: seq<byte>, b: seq<byte>)
    requires b != []
    ensures EndsLine(a + b) <==> EndsLine(b)
  {
    assert (a + b)[|a + b| - 1] == b[|b| - 1];
  }

  lemma LineCount(text: seq<byte>)
    ensures |Lines(text)| == |Split(text)| - if EndsLine(text) then 1 else 0
  {
    SplitLastEmpty(text);
  }

  // ---------------------------------------------------------------- runs of polls

  datatype Run = Run(state: FileState, blocks: seq<seq<byte>>)

  function RunPolls(cfg: Config, st: FileState, snaps: seq<Snapshot>): (r: Run) {
    if snaps == [] then Run(st, [])
    else
      var before := RunPolls(cfg, st, snaps[..|snaps| - 1]);
      var p := Poll(cfg, Some(before.state), snaps[|snaps| - 1]);
      Run(p.state, before.blocks + [p.block])
  }

  /** One inode, and each snapshot extends the one before. */
  predicate AppendOnly(snaps: seq<Snapshot>) {
    var n := |snaps| - 1;
    n <= 0 || (
      && AppendOnly(snaps[..n])
      && snaps[n - 1].inode == snaps[n].inode
      && snaps[n - 1].content <= snaps[n].content)
  }

  /** How many leading bytes the stored fingerprint covers. */
  function Covered(st: FileState): (k: nat) {
    |st.fingerprint| / 2
  }

  /** `st` was recorded for some prefix of `content`. */
  predicate Tracks(st: FileState, content: seq<byte>) {
    && st.offset <= |content|
    && (st.fingerprint == "" ==> st.offset == 0)
    && Covered(st) <= Min(FINGERPRINT_SIZE, |content|)
    && st.fingerprint == Hex(content[..Covered(st)])
  }

  lemma FreshStateTracks(cfg: Config, snap: Snapshot)
    ensures Tracks(Poll(cfg, None, snap).state, snap.content)
    ensures cfg.fromEnd ==> Poll(cfg, None, snap).block == []
  {
  }

  /** On the file that is being tracked, "rotation" can only fire while nothing was
      consumed yet: the stored fingerprint is still empty. */
  lemma RotationOnlyBeforeFirstByte(st: FileState, snap: Snapshot)
    requires Tracks(st, snap.content) && snap.inode == st.inode
    ensures Rotated(st, snap) <==> st.fingerprint == "" && snap.content != []
    ensures Rotated(st, snap) ==> st.offset == 0
  {
    var k := Covered(st);
    var c := snap.content[..Min(FINGERPRINT_SIZE, |snap.content|)];
    assert snap.content[..k] == c[..k];
    FingerprintsMatchIsPrefix(c, c[..k]);
  }

  /** A replaced file is read again from its first byte. */
  lemma ReplacedFileStartsOver(cfg: Config, st: FileState, old_: seq<byte>, snap: Snapshot)
    requires st.fingerprint == Fingerprint(old_)
    requires || (snap.inode != st.inode && snap.inode != 0 && st.inode != 0)
             || !(old_[..Min(FINGERPRINT_SIZE, |old_|)] <= snap.content)
             || |snap.content| < st.offset
    ensures Synced(cfg, Some(st), snap) == FileState(0, snap.inode, Fingerprint(snap.content))
    ensures Poll(cfg, Some(st), snap).block == Block(cfg, snap.content, 0)
  {
    var stored := old_[..Min(FINGERPRINT_SIZE, |old_|)];
    var current := snap.content[..Min(FINGERPRINT_SIZE, |snap.content|)];
    FingerprintsMatchIsPrefix(current, stored);
    if stored <= current {
      assert stored <= snap.content;
    }
  }

  lemma PollOfTracked(cfg: Config, st: FileState, snap: Snapshot)
    requires Tracks(st, snap.content) && snap.inode == st.inode
    ensures var p := Poll(cfg, Some(st), snap);
      && p.state.inode == st.inode
      && st.offset <= p.state.offset
      && p.block == Block(cfg, snap.content, st.offset)
      && p.block == snap.content[st.offset..p.state.offset]
      && Tracks(p.state, snap.content)
  {
    SyncKeepsTrack(cfg, st, snap);
  }

  lemma SyncKeepsTrack(cfg: Config, st: FileState, snap: Snapshot)
    requires Tracks(st, snap.content) && snap.inode == st.inode
    ensures var s := Synced(cfg, Some(st), snap);
      && s.inode == st.inode && s.offset == st.offset && Tracks(s, snap.content)
      && (snap.content != [] ==> s.fingerprint != "")
  {
    RotationOnlyBeforeFirstByte(st, snap);
  }

  lemma TracksExtension(st: FileState, a: seq<byte>, b: seq<byte>)
    requires Tracks(st, a) && a <= b
    ensures Tracks(st, b)
  {
    assert a[..Covered(st)] == b[..Covered(st)];
  }

  /** What a run has consumed by the time of a snapshot: consecutive pieces of the file from
      the start on, with no gap and no repetition. */
  predicate Delivered(r: Run, st: FileState, snap: Snapshot) {
    && r.state.inode == st.inode == snap.inode
    && st.offset <= r.state.offset <= |snap.content|
    && Flatten(r.blocks) == snap.content[st.offset..r.state.offset]
    && Tracks(r.state, snap.content)
  }

  /** Exactly-once delivery: over any run of polls on an append-only file the consumed
      blocks are the file from the starting point up to the offset. */
  lemma {:induction false} ExactlyOnce(cfg: Config, st: FileState, snaps: seq<Snapshot>)
    requires snaps != [] && AppendOnly(snaps)
    requires st.inode == snaps[0].inode && Tracks(st, snaps[0].content)
    ensures Delivered(RunPolls(cfg, st, snaps), st, snaps[|snaps| - 1])
    decreases |snaps|, 1
  {
    var before := BeforeLastPoll(cfg, st, snaps);
    OneMorePoll(cfg, st.offset, before, snaps[|snaps| - 1]);
  }

  /** After every run the stored fingerprint is that of the file as last seen, however short
      the file was when it was first seen. */
  lemma RunRemembersHead(cfg: Config, st: FileState, snaps: seq<Snapshot>)
    requires snaps != [] && AppendOnly(snaps)
    requires st.inode == snaps[0].inode && Tracks(st, snaps[0].content)
    ensures RunPolls(cfg, st, snaps).state.fingerprint == Fingerprint(snaps[|snaps| - 1].content)
  {
    var before := BeforeLastPoll(cfg, st, snaps);
    FingerprintGrows(cfg, before.state, snaps[|snaps| - 1]);
  }

  lemma FingerprintGrows(cfg: Config, st: FileState, snap: Snapshot)
    requires Tracks(st, snap.content) && snap.inode == st.inode
    ensures Poll(cfg, Some(st), snap).state.fingerprint == Fingerprint(snap.content)
  {
    SyncKeepsTrack(cfg, st, snap);
  }

  /** The state a run's last poll starts from, seen against the final content. */
  lemma {:induction false} BeforeLastPoll(cfg: Config, st: FileState, snaps: seq<Snapshot>) returns (before: Run)
    requires snaps != [] && AppendOnly(snaps)
    requires st.inode == snaps[0].inode && Tracks(st, snaps[0].content)
    ensures before == RunPolls(cfg, st, snaps[..|snaps| - 1])
    ensures Delivered(before, st, snaps[|snaps| - 1])
    decreases |snaps|, 0
  {
    before := RunPolls(cfg, st, snaps[..|snaps| - 1]);
    EarlierSnapshots(snaps);
    RunSeenLater(cfg, st, snaps[..|snaps| - 1], snaps[|snaps| - 1]);
  }

  /** `later` shows the same file as the snapshots, or follows none. */
  predicate Continues(snaps: seq<Snapshot>, later: Snapshot) {
    snaps != [] ==>
      && AppendOnly(snaps) && snaps[|snaps| - 1].inode == later.inode
      && snaps[|snaps| - 1].content <= later.content
  }

  lemma EarlierSnapshots(snaps: seq<Snapshot>)
    requires snaps != [] && AppendOnly(snaps)
    ensures var n := |snaps| - 1;
      Continues(snaps[..n], snaps[n]) && (n > 0 ==> snaps[..n][0] == snaps[0])
  {
  }

  lemma NothingYet(st: FileState, snap: Snapshot)
    requires st.inode == snap.inode && Tracks(st, snap.content)
    ensures Delivered(Run(st, []), st, snap)
  {
  }

  /** A run's result, seen against a later snapshot of the same file. */
  lemma {:induction false} RunSeenLater(cfg: Config, st: FileState, snaps: seq<Snapshot>, later: Snapshot)
    requires Continues(snaps, later)
    requires var first := if snaps == [] then later else snaps[0];
      st.inode == first.inode && Tracks(st, first.content)
    ensures Delivered(RunPolls(cfg, st, snaps), st, later)
    decreases |snaps|, 2
  {
    if snaps == [] {
      NothingYet(st, later);
    } else {
      ExactlyOnce(cfg, st, snaps);
      SeenLater(RunPolls(cfg, st, snaps), st, snaps[|snaps| - 1], later);
    }
  }

  lemma SeenLater(r: Run, st: FileState, snap: Snapshot, later: Snapshot)
    requires Delivered(r, st, snap) && snap.inode == later.inode && snap.content <= later.content
    ensures Delivered(r, st, later)
  {
    TracksExtension(r.state, snap.content, later.content);
    SliceOfPrefix(snap.content, later.content, st.offset, r.state.offset);
  }

  lemma OneMorePoll(cfg: Config, start: nat, before: Run, snap: Snapshot)
    requires Tracks(before.state, snap.content) && snap.inode == before.state.inode
    requires start <= before.state.offset
    requires Flatten(before.blocks) == snap.content[start..before.state.offset]
    ensures var p := Poll(cfg, Some(before.state), snap);
      && p.state.inode == before.state.inode
      && before.state.offset <= p.state.offset <= |snap.content|
      && Flatten(before.blocks + [p.block]) == snap.content[start..p.state.offset]
      && Tracks(p.state, snap.content)
  {
    PollOfTracked(cfg, before.state, snap);
    var p := Poll(cfg, Some(before.state), snap);
    FlattenSnoc(before.blocks, p.block);
    SliceJoin(snap.content, start, before.state.offset, p.state.offset);
  }

  lemma SliceJoin<T>(s: seq<T>, i: nat, j: nat, k: nat)
    requires i <= j <= k <= |s|
    ensures s[i..j] + s[j..k] == s[i..k]
  {
  }

  lemma SliceOfPrefix<T>(a: seq<T>, b: seq<T>, i: nat, j: nat)
    requires a <= b && i <= j <= |a|
    ensures a[i..j] == b[i..j]
  {
  }

  // ---------------------------------------------------------------- lines across polls

  function LinesOfBlocks(blocks: seq<seq<byte>>): (ls: seq<seq<byte>>) {
    if blocks == [] then []
    else LinesOfBlocks(blocks[..|blocks| - 1]) + Lines(blocks[|blocks| - 1])
  }

  /** Every nonempty block begins right after a newline (or at the very start). */
  predicate StartsOnLines(blocks: seq<seq<byte>>) {
    blocks == [] ||
    var before := blocks[..|blocks| - 1];
    StartsOnLines(before) && (blocks[|blocks| - 1] == [] || EndsLine(Flatten(before)))
  }

  /** Splitting block by block gives the lines of the whole exactly when no block
      starts in the middle of a line. */
  lemma {:induction false} LinesBlockByBlock(blocks: seq<seq<byte>>)
    ensures |LinesOfBlocks(blocks)| >= |Lines(Flatten(blocks))|
    ensures StartsOnLines(blocks) <==> LinesOfBlocks(blocks) == Lines(Flatten(blocks))
    ensures StartsOnLines(blocks) <==> |LinesOfBlocks(blocks)| == |Lines(Flatten(blocks))|
  {
    if blocks != [] {
      var before, last := blocks[..|blocks| - 1], blocks[|blocks| - 1];
      LinesBlockByBlock(before);
      if last == [] {
        assert Flatten(blocks) == Flatten(before);
        assert LinesOfBlocks(blocks) == LinesOfBlocks(before);
      } else if EndsLine(Flatten(before)) {
        LinesOfConcat(Flatten(before), last);
      } else {
        LinesOfCut(Flatten(before), last);
      }
    }
  }

  /** Position `p` begins a line of content[start..]. */
  predicate LineStart(content: seq<byte>, start: nat, p: nat) {
    start <= p <= |content| && (p == start || content[p - 1] == LF)
  }

  /** No newline in the `n` bytes from `p` on. */
  predicate Unbroken(content: seq<byte>, p: nat, n: nat) {
    p + n <= |content| && forall i :: p <= i < p + n ==> content[i] != LF
  }

  /** A line that starts at or after `start`, is longer than one read, and has been
      read past before `end`. */
  predicate Overlong(cfg: Config, content: seq<byte>, start: nat, end: nat) {
    exists p: nat :: LineStart(content, start, p) && p + cfg.maxReadBytes < end
                     && Unbroken(content, p, cfg.maxReadBytes)
  }

  /** A poll ends on a line boundary unless its window is full and has no newline. */
  lemma BlockShape(cfg: Config, content: seq<byte>, offset: nat)
    requires cfg.Valid() && offset <= |content|
    ensures var b := Block(cfg, content, offset);
      EndsLine(b) || (|b| == cfg.maxReadBytes && Unbroken(content, offset, cfg.maxReadBytes))
  {
    var buf := Window(cfg, content, offset);
    assert forall i :: 0 <= i < |buf| ==> buf[i] == content[offset + i];
  }

  /** What a run guarantees about its last position: a line boundary, or the end of a
      forced block that itself began on a boundary. */
  predicate Settled(cfg: Config, content: seq<byte>, start: nat, offset: nat) {
    || LineStart(content, start, offset)
    || (cfg.maxReadBytes <= offset
        && LineStart(content, start, offset - cfg.maxReadBytes)
        && Unbroken(content, offset - cfg.maxReadBytes, cfg.maxReadBytes))
  }

  lemma EndsLineIsLineStart(content: seq<byte>, start: nat, end: nat)
    requires start <= end <= |content|
    ensures EndsLine(content[start..end]) <==> LineStart(content, start, end)
  {
  }

  /** One poll keeps the equivalence between unbroken delivery and absence of
      overlong lines. */
  lemma LinesStep(cfg: Config, content: seq<byte>, start: nat, offset: nat, clean: bool)
    requires cfg.Valid() && start <= offset <= |content|
    requires clean <==> !Overlong(cfg, content, start, offset)
    requires clean ==> Settled(cfg, content, start, offset)
    ensures var b := Block(cfg, content, offset);
      var end := offset + |b|;
      var clean' := clean && (b == [] || LineStart(content, start, offset));
      && (clean' <==> !Overlong(cfg, content, start, end))
      && (clean' ==> Settled(cfg, content, start, end))
  {
    var b := Block(cfg, content, offset);
    var end := offset + |b|;
    var max := cfg.maxReadBytes;
    BlockShape(cfg, content, offset);
    if b == [] {
    } else if clean && LineStart(content, start, offset) {
      forall p: nat | LineStart(content, start, p) && p + max < end
        ensures !Unbroken(content, p, max)
      {
        if p + max >= offset {
          assert content[offset - 1] == LF;
        }
      }
      if EndsLine(b) {
        assert content[end - 1] == b[|b| - 1];
      }
    } else if clean {
      assert LineStart(content, start, offset - max) && offset - max + max < end;
    } else {
      var p: nat :| LineStart(content, start, p) && p + max < offset && Unbroken(content, p, max);
      assert p + max < end;
    }
  }

  lemma StartsOnLinesSnoc(blocks: seq<seq<byte>>, b: seq<byte>)
    ensures StartsOnLines(blocks + [b]) <==> StartsOnLines(blocks) && (b == [] || EndsLine(Flatten(blocks)))
  {
    assert (blocks + [b])[..|blocks|] == blocks;
  }

  /** The consumed blocks are unbroken exactly when no overlong line was passed. */
  predicate Faithful(cfg: Config, content: seq<byte>, start: nat, offset: nat, blocks: seq<seq<byte>>) {
    && (StartsOnLines(blocks) <==> !Overlong(cfg, content, start, offset))
    && (StartsOnLines(blocks) ==> Settled(cfg, content, start, offset))
  }

  lemma FaithfulStep(cfg: Config, content: seq<byte>, start: nat, offset: nat, blocks: seq<seq<byte>>, b: seq<byte>)
    requires cfg.Valid() && start <= offset <= |content|
    requires Flatten(blocks) == content[start..offset]
    requires Faithful(cfg, content, start, offset, blocks) && b == Block(cfg, content, offset)
    ensures Faithful(cfg, content, start, offset + |b|, blocks + [b])
  {
    LinesStep(cfg, content, start, offset, StartsOnLines(blocks));
    StartsOnLinesSnoc(blocks, b);
    EndsLineIsLineStart(content, start, offset);
  }

  lemma FaithfulPoll(cfg: Config, start: nat, before: Run, snap: Snapshot)
    requires cfg.Valid() && Tracks(before.state, snap.content) && snap.inode == before.state.inode
    requires start <= before.state.offset
    requires Flatten(before.blocks) == snap.content[start..before.state.offset]
    requires Faithful(cfg, snap.content, start, before.state.offset, before.blocks)
    ensures var p := Poll(cfg, Some(before.state), snap);
      Faithful(cfg, snap.content, start, p.state.offset, before.blocks + [p.block])
  {
    PollAdvances(cfg, before.state, snap);
    FaithfulAdvance(cfg, snap.content, start, before, Poll(cfg, Some(before.state), snap));
  }

  lemma FaithfulAdvance(cfg: Config, content: seq<byte>, start: nat, before: Run, p: PollResult)
    requires cfg.Valid() && start <= before.state.offset <= |content|
    requires Flatten(before.blocks) == content[start..before.state.offset]
    requires Faithful(cfg, content, start, before.state.offset, before.blocks)
    requires p.block == Block(cfg, content, before.state.offset)
    requires p.state.offset == before.state.offset + |p.block|
    ensures Faithful(cfg, content, start, p.state.offset, before.blocks + [p.block])
  {
    FaithfulStep(cfg, content, start, before.state.offset, before.blocks, p.block);
  }

  lemma PollAdvances(cfg: Config, st: FileState, snap: Snapshot)
    requires Tracks(st, snap.content) && snap.inode == st.inode
    ensures var p := Poll(cfg, Some(st), snap);
      p.block == Block(cfg, snap.content, st.offset) && p.state.offset == st.offset + |p.block|
  {
    SyncKeepsTrack(cfg, st, snap);
  }

  /** Faithfulness depends only on the bytes consumed so far. */
  lemma FaithfulExtension(cfg: Config, a: seq<byte>, b: seq<byte>, start: nat, end: nat, blocks: seq<seq<byte>>)
    requires a <= b && start <= end <= |a|
    requires Faithful(cfg, a, start, end, blocks)
    ensures Faithful(cfg, b, start, end, blocks)
  {
    forall p: nat | p + cfg.maxReadBytes < end
      ensures LineStart(a, start, p) <==> LineStart(b, start, p)
      ensures Unbroken(a, p, cfg.maxReadBytes) <==> Unbroken(b, p, cfg.maxReadBytes)
    {
    }
  }

  lemma {:induction false} RunLines(cfg: Config, st: FileState, snaps: seq<Snapshot>)
    requires cfg.Valid() && snaps != [] && AppendOnly(snaps)
    requires st.inode == snaps[0].inode && Tracks(st, snaps[0].content)
    ensures var r := RunPolls(cfg, st, snaps);
      Faithful(cfg, snaps[|snaps| - 1].content, st.offset, r.state.offset, r.blocks)
    decreases |snaps|, 1
  {
    var before := BeforeLastPoll(cfg, st, snaps);
    RunLinesBefore(cfg, st, snaps, before);
    FaithfulPoll(cfg, st.offset, before, snaps[|snaps| - 1]);
  }

  lemma {:induction false} RunLinesBefore(cfg: Config, st: FileState, snaps: seq<Snapshot>, before: Run)
    requires cfg.Valid() && snaps != [] && AppendOnly(snaps)
    requires st.inode == snaps[0].inode && Tracks(st, snaps[0].content)
    requires before == RunPolls(cfg, st, snaps[..|snaps| - 1])
    ensures Faithful(cfg, snaps[|snaps| - 1].content, st.offset, before.state.offset, before.blocks)
    decreases |snaps|, 0
  {
    var n := |snaps| - 1;
    if n == 0 {
      assert snaps[..0] == [];
    } else {
      var content := snaps[n - 1].content;
      assert snaps[..n][n - 1] == snaps[n - 1];
      RunLines(cfg, st, snaps[..n]);
      ExactlyOnce(cfg, st, snaps[..n]);
      FaithfulExtension(cfg, content, snaps[n].content, st.offset, before.state.offset, before.blocks);
    }
  }

  /** Polling incrementally delivers exactly the lines that one split of the consumed
      region gives, if and only if no line in that region outgrew one read. */
  lemma LinesExactlyOnce(cfg: Config, st: FileState, snaps: seq<Snapshot>)
    requires cfg.Valid() && snaps != [] && AppendOnly(snaps)
    requires st.inode == snaps[0].inode && Tracks(st, snaps[0].content)
    ensures var r := RunPolls(cfg, st, snaps);
      var content := snaps[|snaps| - 1].content;
      && st.offset <= r.state.offset <= |content|
      && (LinesOfBlocks(r.blocks) == Lines(content[st.offset..r.state.offset])
          <==> !Overlong(cfg, content, st.offset, r.state.offset))
  {
    ExactlyOnce(cfg, st, snaps);
    RunLines(cfg, st, snaps);
    LinesBlockByBlock(RunPolls(cfg, st, snaps).blocks);
  }

  // ---------------------------------------------------------------- catching up

  /** What is left unread is an unfinished line shorter than one read. */
  predicate CaughtUp(cfg: Config, st: FileState, content: seq<byte>) {
    && st.offset <= |content|
    && |content| - st.offset < cfg.maxReadBytes
    && Unbroken(content, st.offset, |content| - st.offset)
  }

  lemma PollProgress(cfg: Config, st: FileState, snap: Snapshot)
    requires cfg.Valid() && Tracks(st, snap.content) && snap.inode == st.inode
    ensures var p := Poll(cfg, Some(st), snap);
      if CaughtUp(cfg, st, snap.content) then p.block == [] && p.state.offset == st.offset
      else st.offset < p.state.offset
  {
    PollOfTracked(cfg, st, snap);
    BlockProgress(cfg, snap.content, st);
  }

  lemma BlockProgress(cfg: Config, content: seq<byte>, st: FileState)
    requires cfg.Valid() && st.offset <= |content|
    ensures CaughtUp(cfg, st, content) <==> Block(cfg, content, st.offset) == []
  {
    var buf := Window(cfg, content, st.offset);
    assert forall i :: 0 <= i < |buf| ==> buf[i] == content[st.offset + i];
    assert |buf| < cfg.maxReadBytes ==> buf == content[st.offset..];
  }

  /** On an unchanged file, polling reaches the caught-up state after at most one poll
      per unread byte, and never leaves it. */
  lemma {:induction false} CatchUp(cfg: Config, st: FileState, snap: Snapshot, n: nat)
    requires cfg.Valid() && Tracks(st, snap.content) && snap.inode == st.inode
    ensures var r := RunPolls(cfg, st, seq(n, _ => snap));
      && Tracks(r.state, snap.content) && r.state.inode == st.inode
      && (CaughtUp(cfg, r.state, snap.content) || r.state.offset >= st.offset + n)
      && (n >= |snap.content| - st.offset + 1 ==> CaughtUp(cfg, r.state, snap.content))
  {
    if n > 0 {
      CatchUp(cfg, st, snap, n - 1);
      assert seq(n, _ => snap)[..n - 1] == seq(n - 1, _ => snap);
      var before := RunPolls(cfg, st, seq(n - 1, _ => snap));
      PollOfTracked(cfg, before.state, snap);
      PollProgress(cfg, before.state, snap);
    }
  }

  // ---------------------------------------------------------------- which files are safe

  /** A line starting at `p` fills one read, and the file goes on with either the end of
      that line or enough bytes for another read. */
  ghost predicate TooLong(cfg: Config, content: seq<byte>, start: nat, p: nat) {
    && LineStart(content, start, p) && Unbroken(content, p, cfg.maxReadBytes)
    && (|content| >= p + 2 * cfg.maxReadBytes
        || exists q :: p + cfg.maxReadBytes <= q < |content| && content[q] == LF)
  }

  ghost predicate HasTooLong(cfg: Config, content: seq<byte>, start: nat) {
    exists p: nat :: TooLong(cfg, content, start, p)
  }

  lemma TooLongExtends(cfg: Config, a: seq<byte>, b: seq<byte>, start: nat)
    requires a <= b && HasTooLong(cfg, a, start)
    ensures HasTooLong(cfg, b, start)
  {
    var p: nat :| TooLong(cfg, a, start, p);
    if q :| p + cfg.maxReadBytes <= q < |a| && a[q] == LF {
      assert b[q] == LF;
    }
    assert TooLong(cfg, b, start, p);
  }

  /** The poll that first breaks a line reads on in a line that is too long. */
  lemma BrokenByTooLong(cfg: Config, content: seq<byte>, start: nat, offset: nat)
    requires cfg.Valid() && start <= offset <= |content|
    requires !Overlong(cfg, content, start, offset) && Settled(cfg, content, start, offset)
    ensures OnlyTooLongBreaks(cfg, content, start, offset + |Block(cfg, content, offset)|)
  {
    var b := Block(cfg, content, offset);
    if Overlong(cfg, content, start, offset + |b|) {
      BreakingPoll(cfg, content, start, offset);
    }
  }

  lemma BreakingPoll(cfg: Config, content: seq<byte>, start: nat, offset: nat)
    requires cfg.Valid() && start <= offset <= |content|
    requires !Overlong(cfg, content, start, offset) && Settled(cfg, content, start, offset)
    requires Overlong(cfg, content, start, offset + |Block(cfg, content, offset)|)
    ensures HasTooLong(cfg, content, start)
  {
    var b := Block(cfg, content, offset);
    LinesStep(cfg, content, start, offset, true);
    BlockShape(cfg, content, offset);
    var p := offset - cfg.maxReadBytes;
    if EndsLine(b) {
      assert content[offset + |b| - 1] == b[|b| - 1] == LF;
    }
    assert TooLong(cfg, content, start, p);
  }

  /** A run that breaks a line has read on in a line that is too long. */
  lemma {:induction false} BrokenRunHasTooLong(cfg: Config, st: FileState, snaps: seq<Snapshot>)
    requires cfg.Valid() && snaps != [] && AppendOnly(snaps)
    requires st.inode == snaps[0].inode && Tracks(st, snaps[0].content)
    ensures OnlyTooLongBreaks(cfg, snaps[|snaps| - 1].content, st.offset, RunPolls(cfg, st, snaps).state.offset)
  {
    var n := |snaps| - 1;
    var before := BeforeLastPoll(cfg, st, snaps);
    RunLinesBefore(cfg, st, snaps, before);
    if n > 0 {
      EarlierSnapshots(snaps);
      BrokenRunHasTooLong(cfg, st, snaps[..n]);
      ExactlyOnce(cfg, st, snaps[..n]);
      BrokenSeenLater(cfg, snaps[..n][n - 1].content, snaps[n].content, st.offset, before.state.offset);
    }
    PollAdvances(cfg, before.state, snaps[n]);
    if !Overlong(cfg, snaps[n].content, st.offset, before.state.offset) {
      BrokenByTooLong(cfg, snaps[n].content, st.offset, before.state.offset);
    }
  }

  ghost predicate OnlyTooLongBreaks(cfg: Config, content: seq<byte>, start: nat, end: nat) {
    Overlong(cfg, content, start, end) ==> HasTooLong(cfg, content, start)
  }

  lemma BrokenSeenLater(cfg: Config, a: seq<byte>, b: seq<byte>, start: nat, end: nat)
    requires a <= b && end <= |a| && OnlyTooLongBreaks(cfg, a, start, end)
    ensures OnlyTooLongBreaks(cfg, b, start, end)
  {
    if Overlong(cfg, b, start, end) {
      var p: nat :| LineStart(b, start, p) && p + cfg.maxReadBytes < end && Unbroken(b, p, cfg.maxReadBytes);
      assert LineStart(a, start, p) && Unbroken(a, p, cfg.maxReadBytes);
      TooLongExtends(cfg, a, b, start);
    }
  }

  /** Any sequence of polls that has come to see the file as it is in `snap`. */
  ghost predicate LeadsTo(st: FileState, snaps: seq<Snapshot>, snap: Snapshot) {
    && snaps != [] && AppendOnly(snaps) && snaps[|snaps| - 1] == snap
    && st.inode == snaps[0].inode && Tracks(st, snaps[0].content)
  }

  ghost predicate DeliversLines(cfg: Config, st: FileState, snaps: seq<Snapshot>, content: seq<byte>) {
    var r := RunPolls(cfg, st, snaps);
    && st.offset <= r.state.offset <= |content|
    && LinesOfBlocks(r.blocks) == Lines(content[st.offset..r.state.offset])
  }

  lemma {:induction false} UnchangedIsAppendOnly(snap: Snapshot, n: nat)
    ensures AppendOnly(seq(n, _ => snap))
  {
    if n > 1 {
      UnchangedIsAppendOnly(snap, n - 1);
      assert seq(n, _ => snap)[..n - 1] == seq(n - 1, _ => snap);
    }
  }

  /** Polling an unchanged file to the end breaks a line that is too long. */
  lemma TooLongIsBroken(cfg: Config, st: FileState, snap: Snapshot) returns (snaps: seq<Snapshot>)
    requires cfg.Valid() && Tracks(st, snap.content) && snap.inode == st.inode
    requires HasTooLong(cfg, snap.content, st.offset)
    ensures LeadsTo(st, snaps, snap) && !DeliversLines(cfg, st, snaps, snap.content)
  {
    var n := |snap.content| - st.offset + 1;
    snaps := seq(n, _ => snap);
    UnchangedIsAppendOnly(snap, n);
    CatchUp(cfg, st, snap, n);
    LinesExactlyOnce(cfg, st, snaps);
    CaughtUpPassesTooLong(cfg, RunPolls(cfg, st, snaps).state, snap.content, st.offset);
  }

  lemma CaughtUpPassesTooLong(cfg: Config, st: FileState, content: seq<byte>, start: nat)
    requires HasTooLong(cfg, content, start) && CaughtUp(cfg, st, content)
    ensures Overlong(cfg, content, start, st.offset)
  {
    var p: nat :| TooLong(cfg, content, start, p);
    assert p + cfg.maxReadBytes < st.offset;
  }

  /** A condition on the file alone, both ways: every sequence of polls delivers exactly the
      lines of what it consumed if and only if no line is too long. */
  lemma EveryRunDeliversIff(cfg: Config, st: FileState, snap: Snapshot)
    requires cfg.Valid() && Tracks(st, snap.content) && snap.inode == st.inode
    ensures (forall snaps :: LeadsTo(st, snaps, snap) ==> DeliversLines(cfg, st, snaps, snap.content))
       <==> !HasTooLong(cfg, snap.content, st.offset)
  {
    if HasTooLong(cfg, snap.content, st.offset) {
      var snaps := TooLongIsBroken(cfg, st, snap);
    } else {
      forall snaps | LeadsTo(st, snaps, snap)
        ensures DeliversLines(cfg, st, snaps, snap.content)
      {
        LinesExactlyOnce(cfg, st, snaps);
        BrokenRunHasTooLong(cfg, st, snaps);
      }
    }
  }

  /** A concrete overlong line: with two-byte reads "abc\n" arrives as "ab" and "c". */
  lemma OverlongLineIsCut()
    ensures var cfg := Config(2, false);
      var content: seq<byte> := [97, 98, 99, LF];
      && Block(cfg, content, 0) == [97, 98] && Block(cfg, content, 2) == [99, LF]
      && LinesOfBlocks([[97, 98], [99, LF]]) != Lines(content)
  {
    var content: seq<byte> := [97, 98, 99, LF];
    var cfg := Config(2, false);
    assert Window(cfg, content, 0) == [97, 98] && Window(cfg, content, 2) == [99, LF];
    LinesOfCut([97, 98], [99, LF]);
    assert [97, 98] + [99, LF] == content;
    var blocks: seq<seq<byte>> := [[97, 98], [99, LF]];
    assert blocks[..1] == [[97, 98]] && blocks[..1][..0] == [];
  }

  // ---------------------------------------------------------------- the tailer object

  /** What happens to each raw line before it is matched. `sanitize` stands for
      strings.ToValidUTF8. */
  function CleanLines(raw: seq<seq<byte>>, sanitize: seq<byte> -> seq<byte>): (ls: seq<seq<byte>>)
    ensures |ls| == |raw|
    ensures forall i :: 0 <= i < |raw| ==> ls[i] == sanitize(TrimRightCR(raw[i]))
  {
    seq(|raw|, i requires 0 <= i < |raw| => sanitize(TrimRightCR(raw[i])))
  }

  /** The tail state of one configured instance: one entry per monitored path. */
  class LogTailer {
    const cfg: Config
    const sanitize: seq<byte> -> seq<byte>
    const included: seq<byte> -> bool
    const excluded: Option<seq<byte> -> bool>
    var fileStates: map<string, FileState>
    var stateDirty: bool

    constructor (maxReadBytes: int, fromEnd: bool, sanitize: seq<byte> -> seq<byte>,
                 included: seq<byte> -> bool, excluded: Option<seq<byte> -> bool>)
      ensures cfg.Valid() && cfg.fromEnd == fromEnd
      ensures cfg.maxReadBytes == (if maxReadBytes <= 0 then DEFAULT_MAX_READ else maxReadBytes)
      ensures fileStates == map[] && !stateDirty
    {
      this.cfg := Config(if maxReadBytes <= 0 then DEFAULT_MAX_READ else maxReadBytes, fromEnd);
      this.sanitize := sanitize;
      this.included := included;
      this.excluded := excluded;
      fileStates := map[];
      stateDirty := false;
    }

    predicate Matches(line: seq<byte>) {
      included(line) && (excluded.None? || !excluded.value(line))
    }

    ghost function Expected(path: string, snap: Snapshot): (p: PollResult)
      reads this
    {
      Poll(cfg, Known(path), snap)
    }

    /** One poll of one file. The state is marked for saving exactly when it changed. */
    method ProcessFile(path: string, snap: Snapshot) returns (lines: seq<seq<byte>>, matched: seq<nat>)
      requires cfg.Valid()
      modifies this
      ensures fileStates == old(fileStates)[path := old(Expected(path, snap)).state]
      ensures stateDirty == (old(stateDirty) || fileStates != old(fileStates))
      ensures lines == CleanLines(Lines(old(Expected(path, snap)).block), sanitize)
      ensures forall i, j :: 0 <= i < j < |matched| ==> matched[i] < matched[j]
      ensures forall i :: i in matched <==> 0 <= i < |lines| && Matches(lines[i])
    {
      lines, matched := [], [];
      var completeRaw := Advance(path, snap);
      if completeRaw == [] {
        return;
      }
      var rawLines := SplitLoop(completeRaw);
      if rawLines[|rawLines| - 1] == [] {
        rawLines := rawLines[..|rawLines| - 1];
      }
      lines, matched := MatchLines(rawLines);
    }

    /** Everything a poll does to the state: detect rotation, read, move the offset. */
    method Advance(path: string, snap: Snapshot) returns (completeRaw: seq<byte>)
      requires cfg.Valid()
      modifies this
      ensures fileStates == old(fileStates)[path := old(Expected(path, snap)).state]
      ensures stateDirty == (old(stateDirty) || fileStates != old(fileStates))
      ensures completeRaw == old(Expected(path, snap)).block
    {
      ghost var before := Known(path);
      SyncState(path, snap);
      var state := fileStates[path];
      completeRaw := ReadBlock(cfg, snap.content, state.offset);
      PollParts(cfg, before, snap);
      if completeRaw != [] {
        fileStates := fileStates[path := state.(offset := state.offset + |completeRaw|)];
        stateDirty := true;
      }
    }

    /** Rotation detection and first sight of a file. */
    method SyncState(path: string, snap: Snapshot)
      modifies this
      ensures fileStates == old(fileStates)[path := Synced(cfg, old(Known(path)), snap)]
      ensures stateDirty == (old(stateDirty) || fileStates != old(fileStates))
    {
      var fp := Fingerprint(snap.content);
      if path !in fileStates {
        fileStates := fileStates[path :=
          FileState(if cfg.fromEnd then |snap.content| else 0, snap.inode, fp)];
        stateDirty := true;
      } else {
        var state := fileStates[path];
        var rotated := false;
        if snap.inode != state.inode && snap.inode != 0 && state.inode != 0 {
          rotated := true;
        } else if !FingerprintsMatch(fp, state.fingerprint) {
          rotated := true;
        } else if |snap.content| < state.offset {
          rotated := true;
        }
        if rotated {
          fileStates := fileStates[path := FileState(0, snap.inode, fp)];
          stateDirty := true;
          assert fileStates[path] != state;
        } else if |fp| > |state.fingerprint| {
          fileStates := fileStates[path := state.(fingerprint := fp)];
          stateDirty := true;
          assert fileStates[path] != state;
        }
      }
    }

    ghost function Known(path: string): (o: Option<FileState>)
      reads this
    {
      if path in fileStates then Some(fileStates[path]) else None
    }

    /** Cleans the raw lines and collects the indices of those that match. */
    method MatchLines(rawLines: seq<seq<byte>>) returns (lines: seq<seq<byte>>, matched: seq<nat>)
      ensures lines == CleanLines(rawLines, sanitize)
      ensures forall i, j :: 0 <= i < j < |matched| ==> matched[i] < matched[j]
      ensures forall i :: i in matched <==> 0 <= i < |lines| && Matches(lines[i])
    {
      lines, matched := [], [];
      for i := 0 to |rawLines|
        invariant |lines| == i
        invariant forall k :: 0 <= k < i ==> lines[k] == sanitize(TrimRightCR(rawLines[k]))
        invariant forall k :: 0 <= k < |matched| ==> matched[k] < i
        invariant forall k, l :: 0 <= k < l < |matched| ==> matched[k] < matched[l]
        invariant forall k :: k in matched <==> 0 <= k < |lines| && Matches(lines[k])
      {
        var line := sanitize(TrimRightCR(rawLines[i]));
        lines := lines + [line];
        if Matches(line) {
          matched := matched + [i];
        }
      }
    }
  }

  /** A poll that consumes something leaves a state different from the one before. */
  lemma PollParts(cfg: Config, prev: Option<FileState>, snap: Snapshot)
    ensures var p := Poll(cfg, prev, snap);
      && p.state == Synced(cfg, prev, snap).(offset := Synced(cfg, prev, snap).offset + |p.block|)
      && (p.block == [] ==> p.state == Synced(cfg, prev, snap))
      && (prev.Some? && p.block != [] ==> p.state != prev.value)
  {
  }

  /** The bounded read and the cut after the last complete line. */
  method ReadBlock(cfg: Config, content: seq<byte>, offset: nat) returns (completeRaw: seq<byte>)
    requires cfg.Valid() && offset <= |content|
    ensures completeRaw == Block(cfg, content, offset)
  {
    if |content| == offset {
      return [];
    }
    var bytesToRead := |content| - offset;
    if bytesToRead > cfg.maxReadBytes {
      bytesToRead := cfg.maxReadBytes;
    }
    var rawBuf := content[offset..offset + bytesToRead];
    var lastNL := LastIndexOfNewline(rawBuf);
    if lastNL < 0 {
      if |rawBuf| < cfg.maxReadBytes {
        return [];
      }
      lastNL := |rawBuf| - 1;
    }
    completeRaw := rawBuf[..lastNL + 1];
  }

  method LastIndexOfNewline(buf: seq<byte>) returns (k: int)
    ensures k == LastNewline(buf)
  {
    k := |buf| - 1;
    while k >= 0 && buf[k] != LF
      invariant -1 <= k < |buf|
      invariant LastNewline(buf) == LastNewline(buf[..k + 1])
    {
      assert buf[..k + 1][..k] == buf[..k];
      k := k - 1;
    }
  }

  method SplitLoop(text: seq<byte>) returns (parts: seq<seq<byte>>)
    ensures parts == Split(text)
  {
    parts := [[]];
    var i := |text|;
    while i > 0
      invariant 0 <= i <= |text| && |parts| >= 1
      invariant parts == Split(text[i..])
    {
      i := i - 1;
      assert text[i..][1..] == text[i + 1..];
      parts := Prepend(text[i], parts);
    }
    assert text[0..] == text;
  }
}
