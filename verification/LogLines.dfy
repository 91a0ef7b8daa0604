/**
 What the delivered lines contain (plugins/logfile/logfile.go): splitting loses and invents
 nothing, so the lines of a run, each with its newline, are the bytes it consumed.
 */
module LogLines {
  import opened Common
  import opened LogTail

  // ---------------------------------------------------------------- pieces

  /** The pieces with a newline between neighbours. */
  function Joined(parts: seq<seq<byte>>): (text: seq<byte>)
    requires parts != []
  {
    if |parts| == 1 then parts[0] else parts[0] + [LF] + Joined(parts[1..])
  }

  /** The lines, each with its newline. */
  function Terminated(ls: seq<seq<byte>>): (text: seq<byte>) {
    if ls == [] then [] else ls[0] + [LF] + Terminated(ls[1..])
  }

  predicate NewlineFree(ls: seq<seq<byte>>) {
    forall i :: 0 <= i < |ls| ==> LF !in ls[i]
  }

  lemma JoinedPrepend(c: byte, parts: seq<seq<byte>>)
    requires parts != []
    ensures Joined(Prepend(c, parts)) == [c] + Joined(parts)
  {
    var r := Prepend(c, parts);
    if c == LF {
      assert r[1..] == parts;
    } else if |parts| > 1 {
      assert r[1..] == parts[1..];
    }
  }

  lemma PrependNewlineFree(c: byte, parts: seq<seq<byte>>)
    requires parts != [] && NewlineFree(parts)
    ensures NewlineFree(Prepend(c, parts))
  {
  }

  /** Splitting is undone by joining with newlines, and no piece contains one. */
  lemma {:induction false} SplitJoined(text: seq<byte>)
    ensures Joined(Split(text)) == text && NewlineFree(Split(text))
  {
    if text != [] {
      SplitJoined(text[1..]);
      JoinedPrepend(text[0], Split(text[1..]));
      PrependNewlineFree(text[0], Split(text[1..]));
      assert text == [text[0]] + text[1..];
    }
  }

  lemma {:induction false} SplitNewlineFree(text: seq<byte>)
    requires LF !in text
    ensures Split(text) == [text]
  {
    if text != [] {
      SplitNewlineFree(text[1..]);
      assert text == [text[0]] + text[1..];
    }
  }

  /** The pieces are the only newline-free ones that join to the text. */
  lemma {:induction false} JoinedSplit(parts: seq<seq<byte>>)
    requires parts != [] && NewlineFree(parts)
    ensures Split(Joined(parts)) == parts
  {
    if |parts| == 1 {
      SplitNewlineFree(parts[0]);
      assert parts == [parts[0]];
    } else {
      JoinedSplit(parts[1..]);
      SplitAtNewline(parts[0], Joined(parts[1..]));
      SplitNewlineFree(parts[0]);
      assert parts == [parts[0]] + parts[1..];
    }
  }

  // ---------------------------------------------------------------- lines

  lemma {:induction false} JoinedSnoc(ls: seq<seq<byte>>, last: seq<byte>)
    ensures Joined(ls + [last]) == Terminated(ls) + last
  {
    if ls == [] {
      assert ls + [last] == [last];
    } else {
      JoinedSnoc(ls[1..], last);
      assert (ls + [last])[1..] == ls[1..] + [last];
      assert (ls + [last])[0] == ls[0];
    }
  }

  lemma {:induction false} TerminatedSnoc(ls: seq<seq<byte>>, last: seq<byte>)
    ensures Terminated(ls + [last]) == Terminated(ls) + last + [LF]
  {
    if ls == [] {
      assert (ls + [last])[1..] == [];
    } else {
      TerminatedSnoc(ls[1..], last);
      assert (ls + [last])[1..] == ls[1..] + [last];
      assert (ls + [last])[0] == ls[0];
    }
  }

  /** The lines of a text, each with its newline, are the text, up to a newline behind a last
      unterminated line; and no line contains a newline. */
  lemma LinesAreText(text: seq<byte>)
    ensures Terminated(Lines(text)) == if EndsLine(text) then text else text + [LF]
    ensures NewlineFree(Lines(text))
  {
    var parts := Split(text);
    var n := |parts| - 1;
    SplitJoined(text);
    SplitLastEmpty(text);
    assert parts == parts[..n] + [parts[n]];
    JoinedSnoc(parts[..n], parts[n]);
    TerminatedSnoc(parts[..n], parts[n]);
  }

  /** Newline-free lines can be told from their bytes. */
  lemma TerminatedInjective(a: seq<seq<byte>>, b: seq<seq<byte>>)
    requires NewlineFree(a) && NewlineFree(b) && Terminated(a) == Terminated(b)
    ensures a == b
  {
    JoinedSnoc(a, []);
    JoinedSnoc(b, []);
    JoinedSplit(a + [[]]);
    JoinedSplit(b + [[]]);
    assert a == (a + [[]])[..|a|] && b == (b + [[]])[..|b|];
  }

  // ---------------------------------------------------------------- lines across polls

  lemma {:induction false} BlockLinesNewlineFree(blocks: seq<seq<byte>>)
    ensures NewlineFree(LinesOfBlocks(blocks))
  {
    if blocks != [] {
      BlockLinesNewlineFree(blocks[..|blocks| - 1]);
      LinesAreText(blocks[|blocks| - 1]);
    }
  }

  /** The bytes a run is expected to deliver as lines: the consumed region, its last line
      terminated. */
  function Completed(region: seq<byte>): (text: seq<byte>) {
    if region == [] || region[|region| - 1] == LF then region else region + [LF]
  }

  /** On bytes: over every run the delivered lines contain no newline, and each followed by
      one they make up exactly the consumed region, if and only if no line in that region
      outgrew one read. */
  lemma DeliveredBytes(cfg: Config, st: FileState, snaps: seq<Snapshot>)
    requires cfg.Valid() && snaps != [] && AppendOnly(snaps)
    requires st.inode == snaps[0].inode && Tracks(st, snaps[0].content)
    ensures var r := RunPolls(cfg, st, snaps);
      var content := snaps[|snaps| - 1].content;
      && st.offset <= r.state.offset <= |content|
      && NewlineFree(LinesOfBlocks(r.blocks))
      && (Terminated(LinesOfBlocks(r.blocks)) == Completed(content[st.offset..r.state.offset])
          <==> !Overlong(cfg, content, st.offset, r.state.offset))
  {
    LinesExactlyOnce(cfg, st, snaps);
    var r := RunPolls(cfg, st, snaps);
    SameLinesSameBytes(r.blocks, snaps[|snaps| - 1].content[st.offset..r.state.offset]);
  }

  lemma SameLinesSameBytes(blocks: seq<seq<byte>>, region: seq<byte>)
    ensures NewlineFree(LinesOfBlocks(blocks))
    ensures Terminated(LinesOfBlocks(blocks)) == Completed(region) <==> LinesOfBlocks(blocks) == Lines(region)
  {
    BlockLinesNewlineFree(blocks);
    LinesAreText(region);
    if Terminated(LinesOfBlocks(blocks)) == Completed(region) {
      TerminatedInjective(LinesOfBlocks(blocks), Lines(region));
    }
  }

  // ---------------------------------------------------------------- one poll

  /** A poll takes the longest piece of its window that ends in a newline; without a newline
      it takes a full window whole and nothing of a shorter one. */
  lemma BlockIsLongest(cfg: Config, content: seq<byte>, offset: nat)
    requires offset <= |content|
    ensures var b := Block(cfg, content, offset);
      var w := content[offset..Min(|content|, offset + cfg.maxReadBytes)];
      && b <= w
      && (if LF in w then b != [] && b[|b| - 1] == LF && LF !in w[|b|..]
          else b == if |w| == cfg.maxReadBytes then w else [])
  {
    var w := Window(cfg, content, offset);
    var k := LastNewline(w);
    assert forall i :: k < i < |w| ==> w[i] != LF;
  }

  /** First sight of a file: everything from the beginning, or nothing of what is there. */
  lemma FirstSight(cfg: Config, snap: Snapshot)
    ensures var p := Poll(cfg, None, snap);
      && p.state.inode == snap.inode && p.state.fingerprint == Fingerprint(snap.content)
      && (!cfg.fromEnd ==> p.block == Block(cfg, snap.content, 0) && p.state.offset == |p.block|)
      && (cfg.fromEnd ==> p.block == [] && p.state.offset == |snap.content|)
  {
  }

  /** Trimming takes the carriage returns at the end of a line, all of them and no more. */
  lemma {:induction false} TrimmedCRs(line: seq<byte>)
    ensures var r := TrimRightCR(line);
      && r <= line && (r == [] || r[|r| - 1] != CR)
      && forall i :: |r| <= i < |line| ==> line[i] == CR
  {
    if line != [] && line[|line| - 1] == CR {
      TrimmedCRs(line[..|line| - 1]);
    }
  }
}
