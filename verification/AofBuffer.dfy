/**
  The rewrite buffer: the differences since the fork, kept in a list of fixed size blocks,
  appended at the tail and sent from the head.
 */
module AofBuffer {
  import opened Text
  import opened Resp

  class Block {
    var used: nat
    var free: nat
    const buf: array<char>

    ghost predicate Valid()
      reads this
    {
      used + free == buf.Length
    }

    ghost function Content(): Bytes
      requires Valid()
      reads this, buf
    {
      buf[..used]
    }

    constructor (size: nat)
      ensures Valid() && fresh(buf) && buf.Length == size && used == 0 && Content() == ""
    {
      buf := new char[size];
      used, free := 0, size;
    }

    /** memcpy behind the used part, as much as fits. */
    method Fill(s: Bytes) returns (n: nat)
      requires Valid()
      modifies this, buf
      ensures Valid() && n <= |s| && n == if old(free) < |s| then old(free) else |s|
      ensures free == old(free) - n
      ensures Content() == old(Content()) + s[..n]
    {
      n := if free < |s| then free else |s|;
      var i := 0;
      while i < n
        modifies buf
        invariant 0 <= i <= n
        invariant buf[..used] == old(buf[..used])
        invariant buf[used..used + i] == s[..i]
      {
        buf[used + i] := s[i];
        i := i + 1;
      }
      assert buf[..used + n] == buf[..used] + buf[used..used + n];
      used := used + n;
      free := free - n;
    }

    /** memmove of what is left to the front after n bytes were sent. */
    method Drop(n: nat)
      requires Valid() && n <= used
      modifies this, buf
      ensures Valid() && used == old(used) - n
      ensures Content() == old(Content())[n..]
    {
      var i := 0;
      while i < used - n
        modifies buf
        invariant 0 <= i <= used - n
        invariant buf[..i] == old(buf[n..n + i])
        invariant buf[n + i..used] == old(buf[n + i..used])
      {
        assert buf[n + i] == buf[n + i..used][0] == old(buf[n + i]);
        buf[i] := buf[n + i];
        i := i + 1;
      }
      used := used - n;
      free := free + n;
    }
  }

  /** The bytes of a list of blocks, given the content of each block. */
  function Joined(pieces: seq<Bytes>): Bytes {
    if pieces == [] then "" else pieces[0] + Joined(pieces[1..])
  }

  lemma {:induction false} JoinedSnoc(pieces: seq<Bytes>, p: Bytes)
    ensures Joined(pieces + [p]) == Joined(pieces) + p
  {
    if pieces == [] {
      assert pieces + [p] == [p] && [p][1..] == [];
    } else {
      assert (pieces + [p])[1..] == pieces[1..] + [p];
      JoinedSnoc(pieces[1..], p);
      Assoc(pieces[0], Joined(pieces[1..]), p);
    }
  }

  lemma JoinedHead(p: Bytes, q: Bytes, rest: seq<Bytes>)
    ensures Joined([p + q] + rest) == p + Joined([q] + rest)
    ensures Joined([""] + rest) == Joined(rest)
  {
    assert ([p + q] + rest)[1..] == rest && ([q] + rest)[1..] == rest && ([""] + rest)[1..] == rest;
    Assoc(p, q, Joined(rest));
  }

  /** Number of bytes sent when each write(2) takes what the list says, up to the first failure. */
  function SentCount(pieces: seq<Bytes>, writes: seq<int>): nat
    decreases |writes|, |pieces|
  {
    if pieces == [] then 0
    else if pieces[0] == "" then SentCount(pieces[1..], writes)
    else if writes == [] || writes[0] <= 0 then 0
    else if writes[0] >= |pieces[0]| then |pieces[0]| + SentCount(pieces[1..], writes[1..])
    else writes[0] + SentCount([pieces[0][writes[0]..]] + pieces[1..], writes[1..])
  }

  /** Every write(2) takes its whole block. */
  predicate AllTaken(pieces: seq<Bytes>, writes: seq<int>) {
    pieces == [] ||
    (if pieces[0] == "" then AllTaken(pieces[1..], writes)
     else writes != [] && writes[0] == |pieces[0]| && AllTaken(pieces[1..], writes[1..]))
  }

  ghost function Arrays(bs: seq<Block>): set<object> {
    set b | b in bs :: b.buf
  }

  /** server.aof_rewrite_buf_blocks with the functions that work on it. */
  class RewriteBuffer {
    const blockSize: nat
    var blocks: seq<Block>
    ghost var pieces: seq<Bytes>

    ghost predicate Valid()
      reads this, blocks, Arrays(blocks)
    {
      && blockSize > 0 && |pieces| == |blocks|
      && (forall i, k :: 0 <= i < k < |blocks| ==> blocks[i] != blocks[k] && blocks[i].buf != blocks[k].buf)
      && (forall i :: 0 <= i < |blocks| ==>
            blocks[i].Valid() && blocks[i].buf.Length == blockSize && blocks[i].Content() == pieces[i])
    }

    ghost function Content(): Bytes
      reads this
    {
      Joined(pieces)
    }

    /** aofRewriteBufferReset on a new buffer */
    constructor (size: nat)
      requires size > 0
      ensures Valid() && Content() == "" && blocks == []
    {
      blockSize, blocks, pieces := size, [], [];
    }

    /** Fills the last block; the other blocks keep their bytes. */
    method FillLast(s: Bytes) returns (n: nat)
      requires Valid() && blocks != []
      modifies this`pieces, blocks, Arrays(blocks)
      ensures Valid() && n <= |s|
      ensures Content() == old(Content()) + s[..n]
      ensures n == 0 ==> s == "" || old(blocks[|blocks| - 1].free) == 0
    {
      var k := |blocks| - 1;
      var block := blocks[k];
      ghost var was := pieces[k];
      n := block.Fill(s);
      assert pieces == pieces[..k] + [was];
      JoinedSnoc(pieces[..k], was);
      JoinedSnoc(pieces[..k], was + s[..n]);
      Assoc(Joined(pieces[..k]), was, s[..n]);
      pieces := pieces[..k] + [was + s[..n]];
    }

    method AddBlock()
      requires Valid()
      modifies this
      ensures Valid() && Content() == old(Content())
      ensures |blocks| == |old(blocks)| + 1 && blocks[..|old(blocks)|] == old(blocks)
      ensures var b := blocks[|old(blocks)|]; fresh(b) && fresh(b.buf) && b.free == blockSize
    {
      var block := new Block(blockSize);
      JoinedSnoc(pieces, "");
      blocks := blocks + [block];
      pieces := pieces + [""];
    }

    /** Room in the last block. */
    predicate HasRoom()
      reads this, blocks
    {
      blocks != [] && blocks[|blocks| - 1].free > 0
    }

    ghost predicate OldOrFresh(bs: set<object>)
      reads this
    {
      forall b :: b in blocks ==> b in bs && b.buf in bs
    }

    /** One turn of the append loop: fill the last block, then get a new one if needed. */
    method AppendSome(s: Bytes) returns (n: nat, ghost added: set<object>)
      requires Valid() && s != ""
      modifies this, blocks, Arrays(blocks)
      ensures Valid() && n <= |s| && Content() == old(Content()) + s[..n]
      ensures fresh(added) && OldOrFresh((set b | b in old(blocks)) + Arrays(old(blocks)) + added)
      ensures n == 0 ==> !old(HasRoom()) && HasRoom()
    {
      hide Joined;
      hide RewriteBuffer.Valid;
      hide SentCount;
      hide AllTaken;
      n := 0;
      added := {};
      if blocks != [] {
        n := FillLast(s);
      }
      if n < |s| {
        AddBlock();
        added := {blocks[|blocks| - 1], blocks[|blocks| - 1].buf};
      }
    }

    /** aofRewriteBufferAppend */
    method Append(data: Bytes)
      requires Valid()
      modifies this, blocks, Arrays(blocks)
      ensures Valid() && Content() == old(Content()) + data
    {
      hide Joined;
      hide RewriteBuffer.Valid;
      hide SentCount;
      hide AllTaken;
      var s := data;
      ghost var done := "";
      ghost var mine: set<object> := {};
      while s != ""
        invariant Valid() && done + s == data && Content() == old(Content()) + done
        invariant fresh(mine) && OldOrFresh((set b | b in old(blocks)) + Arrays(old(blocks)) + mine)
        decreases |s|, if HasRoom() then 0 else 1
      {
        var thislen, added := AppendSome(s);
        Moved(old(Content()), done, s, thislen);
        done, s := done + s[..thislen], s[thislen..];
        mine := mine + added;
      }
      assert done == data;
    }

    /** aofChildWriteDiffData: the outcome list gives what each write(2) returns; the handler
        returns at the first failure, and at once when the parent agreed to stop. */
    method SendToChild(stopSending: bool, writes: seq<int>) returns (sent: Bytes)
      requires Valid()
      modifies this, blocks, Arrays(blocks)
      ensures Valid() && sent + Content() == old(Content())
      ensures |sent| == if stopSending then 0 else SentCount(old(pieces), writes)
    {
      hide Joined;
      sent := "";
      var left := writes;
      while true
        invariant Valid() && sent + Content() == old(Content())
        invariant forall b :: b in blocks ==> b in old(blocks) && b.buf in Arrays(old(blocks))
        invariant if stopSending then sent == "" else |sent| + SentCount(pieces, left) == SentCount(old(pieces), writes)
        decreases |blocks|, |left|
      {
        if stopSending || blocks == [] { return; }
        ghost var was := pieces;
        var block := blocks[0];
        assert block.used == |was[0]|;
        if block.used > 0 {
          var nwritten := if left != [] then left[0] else -1;
          if nwritten <= 0 { return; }
          left := left[1..];
          var piece := SendPiece(if nwritten > block.used then block.used else nwritten);
          Assoc(sent, piece, Content());
          sent := sent + piece;
          Skipped(was[1..], left);
        }
        if block.used == 0 {
          DropFirst();
        }
      }
    }

    method DropFirst()
      requires Valid() && blocks != [] && blocks[0].used == 0
      modifies this
      ensures Valid() && Content() == old(Content()) && blocks == old(blocks)[1..] && pieces == old(pieces)[1..]
    {
      assert pieces == [""] + pieces[1..];
      JoinedHead("", "", pieces[1..]);
      blocks := blocks[1..];
      pieces := pieces[1..];
    }

    /** One successful write of n bytes of the first block, and the memmove behind it. */
    method SendPiece(n: nat) returns (piece: Bytes)
      requires Valid() && blocks != [] && n <= blocks[0].used
      modifies this`pieces, blocks, Arrays(blocks)
      ensures Valid() && piece + Content() == old(Content())
      ensures blocks[0].used == old(blocks[0].used) - n && |piece| == n
      ensures pieces == [old(pieces)[0][n..]] + old(pieces)[1..]
    {
      hide Joined;
      hide SentCount;
      var block := blocks[0];
      ghost var was, rest := pieces[0], pieces[1..];
      piece := block.buf[..n];
      block.Drop(n);
      forall i | 1 <= i < |blocks|
        ensures blocks[i].Valid() && blocks[i].buf.Length == blockSize && blocks[i].Content() == rest[i - 1]
      {
        assert blocks[i] != blocks[0] && blocks[i].buf != blocks[0].buf;
        assert old(blocks[i].Valid() && blocks[i].Content() == pieces[i]);
      }
      assert pieces == [was] + rest && was == piece + was[n..];
      JoinedHead(piece, was[n..], rest);
      pieces := [was[n..]] + rest;
    }

    /** aofRewriteBufferWrite: -1 on the first short write, else the whole content is in the
        file. */
    method WriteTo(file: Bytes, writes: seq<int>) returns (count: int, file': Bytes)
      requires Valid()
      ensures count == if AllTaken(pieces, writes) then |Content()| else -1
      ensures count != -1 ==> file' == file + Content()
    {
      hide Joined;
      count, file' := 0, file;
      ghost var done := "";
      var i, left := 0, writes;
      assert pieces[..0] == [] && pieces[0..] == pieces;
      JoinedNone();
      while i < |blocks|
        invariant 0 <= i <= |blocks|
        invariant AllTaken(pieces, writes) == AllTaken(pieces[i..], left)
        invariant done == Joined(pieces[..i]) && count == |done| && file' == file + done
      {
        var block := blocks[i];
        assert pieces[..i + 1] == pieces[..i] + [pieces[i]] && pieces[i..][1..] == pieces[i + 1..];
        JoinedSnoc(pieces[..i], pieces[i]);
        assert block.used == |pieces[i]|;
        if block.used > 0 {
          var nwritten := if left != [] then left[0] else -1;
          if nwritten != block.used { return -1, file'; }
          left := left[1..];
          count := count + nwritten;
          Assoc(file, done, pieces[i]);
          file' := file' + block.buf[..block.used];
        }
        done := done + pieces[i];
        i := i + 1;
      }
      assert pieces[..i] == pieces;
    }
  }

  lemma Moved(front: Bytes, done: Bytes, s: Bytes, n: nat)
    requires n <= |s|
    ensures (done + s[..n]) + s[n..] == done + s && front + (done + s[..n]) == front + done + s[..n]
  {
    assert s == s[..n] + s[n..];
  }

  /** An emptied first block counts for nothing. */
  lemma Skipped(rest: seq<Bytes>, writes: seq<int>)
    ensures SentCount([""] + rest, writes) == SentCount(rest, writes)
  {
    assert ([""] + rest)[1..] == rest;
  }

  lemma JoinedNone()
    ensures Joined([]) == ""
  {
  }
}
