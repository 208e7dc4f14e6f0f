/** Chunked prompt upload: the stored chunks refine one append-only log of bytes. */
module PromptUpload {
  import opened Prelude

  type Byte = b: nat | b < 256
  type Bytes = seq<Byte>
  type UploadId = int

  const MAX_FRAGMENT: nat := 65_536

  /** What identifies the source of an upload beside its identity. */
  datatype Source = Source(work: int, thread: int, receipt: int, digest: int, total: nat)

  datatype Chunk = Chunk(offset: nat, source: Source, fragment: Bytes)

  /** The rows of each upload in the order of insertion. */
  type Table = map<UploadId, seq<Chunk>>

  /** The digest and the canonical-encoding check, as far as this component sees them. */
  datatype Codec = Codec(digest: Bytes -> int, canonical: Bytes -> bool)

  datatype Assembly = Gap | Incomplete | NotCanonical | Whole(content: Bytes)

  function Rows(t: Table, id: UploadId): seq<Chunk> {
    if id in t then t[id] else []
  }

  function TotalLength(rows: seq<Chunk>): nat {
    if rows == [] then 0 else TotalLength(rows[..|rows| - 1]) + |rows[|rows| - 1].fragment|
  }

  function Content(rows: seq<Chunk>): Bytes {
    if rows == [] then [] else Content(rows[..|rows| - 1]) + rows[|rows| - 1].fragment
  }

  /** ORDER BY offset: insert one row after another into the sorted list. */
  function Ordered(rows: seq<Chunk>): seq<Chunk> {
    if rows == [] then [] else Placed(Ordered(rows[..|rows| - 1]), rows[|rows| - 1])
  }

  function Placed(sorted: seq<Chunk>, c: Chunk): seq<Chunk> {
    if sorted == [] then [c]
    else if sorted[|sorted| - 1].offset <= c.offset then sorted + [c]
    else Placed(sorted[..|sorted| - 1], c) + [sorted[|sorted| - 1]]
  }

  /** Read the chunks in order as long as each starts where the last one ended. None is a gap. */
  function Joined(rows: seq<Chunk>, total: nat): Option<Bytes> {
    if rows == [] then Some([])
    else
      var last := rows[|rows| - 1];
      match Joined(rows[..|rows| - 1], total)
      case None => None
      case Some(content) =>
        if last.offset != |content| || |content| + |last.fragment| > total then None
        else Some(content + last.fragment)
  }

  function Assemble(codec: Codec, rows: seq<Chunk>, source: Source): Assembly {
    match Joined(Ordered(rows), source.total)
    case None => Gap
    case Some(content) =>
      if |content| != source.total || codec.digest(content) != source.digest then Incomplete
      else if !codec.canonical(content) then NotCanonical
      else Whole(content)
  }

  predicate SourceChanged(rows: seq<Chunk>, source: Source) {
    exists i :: 0 <= i < |rows| && rows[i].source != source
  }

  predicate Saved(rows: seq<Chunk>, offset: nat, fragment: Bytes) {
    exists i :: 0 <= i < |rows| && rows[i].offset == offset && rows[i].fragment == fragment
  }

  /** Append one chunk. `admitted` says that the upload belongs to an applied edit of a bound work. */
  function Append(codec: Codec, maximum: nat, t: Table, id: UploadId, source: Source, offset: nat, fragment: Bytes, admitted: bool)
    : Transaction<Table, nat>
  {
    if source.total == 0 || source.total > maximum then Rollback(InvalidInput)
    else if fragment == [] || |fragment| > MAX_FRAGMENT || offset + |fragment| > source.total then Rollback(InvalidInput)
    else if !admitted then Rollback(InvalidInput)
    else
      var rows := Rows(t, id);
      if SourceChanged(rows, source) then Rollback(InvalidInput)
      else
        var count := TotalLength(rows);
        if offset < count then (if Saved(rows, offset, fragment) then Commit(t, count) else Rollback(InvalidInput))
        else if offset != count then Rollback(InvalidInput)
        else
          var extended := rows + [Chunk(offset, source, fragment)];
          if offset + |fragment| == source.total && !Assemble(codec, extended, source).Whole? then Rollback(InvalidInput)
          else Commit(t[id := extended], offset + |fragment|)
  }

  // --------------------------------------------------------------------- runs

  datatype Command = DoAppend(id: UploadId, source: Source, offset: nat, fragment: Bytes, admitted: bool)

  function Run(codec: Codec, maximum: nat, t: Table, commands: seq<Command>): Table {
    if commands == [] then t
    else
      var before := Run(codec, maximum, t, commands[..|commands| - 1]);
      var c := commands[|commands| - 1];
      After(before, Append(codec, maximum, before, c.id, c.source, c.offset, c.fragment, c.admitted))
  }

  /** The chunks tile the received bytes: each is not empty and starts where the last one ended. */
  predicate Tiles(rows: seq<Chunk>) {
    rows != [] ==>
      var last := rows[|rows| - 1];
      && Tiles(rows[..|rows| - 1]) && last.fragment != [] && last.offset == TotalLength(rows[..|rows| - 1])
  }

  predicate OneSource(rows: seq<Chunk>, source: Source) {
    forall i :: 0 <= i < |rows| ==> rows[i].source == source
  }

  predicate Fragments(rows: seq<Chunk>) {
    forall i :: 0 <= i < |rows| ==> 0 < |rows[i].fragment| <= MAX_FRAGMENT
  }

  ghost predicate UploadOk(codec: Codec, maximum: nat, rows: seq<Chunk>) {
    && Tiles(rows) && Fragments(rows)
    && (rows != [] ==>
          var source := rows[0].source;
          && OneSource(rows, source)
          && 0 < source.total <= maximum
          && TotalLength(rows) <= source.total
          && (TotalLength(rows) == source.total ==>
                codec.digest(Content(rows)) == source.digest && codec.canonical(Content(rows))))
  }

  ghost predicate Inv(codec: Codec, maximum: nat, t: Table) {
    forall id :: id in t ==> UploadOk(codec, maximum, t[id])
  }

  // -------------------------------------------------------------------- tiling

  lemma {:induction false} ContentLength(rows: seq<Chunk>)
    ensures |Content(rows)| == TotalLength(rows)
  {
    if rows != [] { ContentLength(rows[..|rows| - 1]); }
  }

  lemma {:induction false} TilesAscend(rows: seq<Chunk>, i: nat)
    requires Tiles(rows) && i < |rows|
    ensures rows[i].offset + |rows[i].fragment| <= TotalLength(rows)
    ensures i + 1 < |rows| ==> rows[i].offset < rows[|rows| - 1].offset
  {
    if i + 1 < |rows| { TilesAscend(rows[..|rows| - 1], i); }
  }

  /** Tiled chunks are already in order, and reading them gives the content. */
  lemma {:induction false} TilesJoin(rows: seq<Chunk>, total: nat)
    requires Tiles(rows) && TotalLength(rows) <= total
    ensures Ordered(rows) == rows && Joined(rows, total) == Some(Content(rows))
  {
    if rows != [] {
      var before := rows[..|rows| - 1];
      TilesJoin(before, total);
      ContentLength(before);
      if before != [] { TilesAscend(rows, |before| - 1); }
      assert rows == before + [rows[|rows| - 1]];
    }
  }

  lemma TilesExtend(rows: seq<Chunk>, c: Chunk)
    requires Tiles(rows) && c.fragment != [] && c.offset == TotalLength(rows)
    ensures Tiles(rows + [c]) && TotalLength(rows + [c]) == TotalLength(rows) + |c.fragment|
    ensures Content(rows + [c]) == Content(rows) + c.fragment
  {
    assert (rows + [c])[..|rows + [c]| - 1] == rows;
  }

  /** The outcome of an append, against the log of the upload's bytes. */
  lemma AppendExtendsTheLog(codec: Codec, maximum: nat, t: Table, id: UploadId, source: Source, offset: nat,
                            fragment: Bytes, admitted: bool)
    requires Inv(codec, maximum, t)
    ensures
      var tx := Append(codec, maximum, t, id, source, offset, fragment, admitted);
      tx.Commit? ==>
        && Inv(codec, maximum, tx.state)
        && (forall other :: other != id ==> Rows(tx.state, other) == Rows(t, other))
        && tx.reply == |Content(Rows(tx.state, id))|
        && (if offset < |Content(Rows(t, id))| then
              tx.state == t && offset + |fragment| <= |Content(Rows(t, id))|
              && Content(Rows(t, id))[offset..offset + |fragment|] == fragment
            else
              offset == |Content(Rows(t, id))| && Content(Rows(tx.state, id)) == Content(Rows(t, id)) + fragment)
  {
    var tx := Append(codec, maximum, t, id, source, offset, fragment, admitted);
    var rows := Rows(t, id);
    ContentLength(rows);
    if tx.Commit? {
      if offset < TotalLength(rows) {
        var i :| 0 <= i < |rows| && rows[i].offset == offset && rows[i].fragment == fragment;
        ChunkInContent(rows, i);
      } else {
        var c := Chunk(offset, source, fragment);
        TilesExtend(rows, c);
        TilesJoin(rows + [c], source.total);
        ContentLength(rows + [c]);
        assert OneSource(rows + [c], source);
        assert UploadOk(codec, maximum, rows + [c]);
      }
    }
  }

  /** A chunk is taken exactly from the one source of an admitted upload whose size is allowed, when it fits a
      frame and the announced total, and either repeats a saved chunk or continues the log; and the chunk that
      completes the log only if the whole has the announced digest and encoding. */
  lemma ChunksAreTakenExactly(codec: Codec, maximum: nat, t: Table, id: UploadId, source: Source, offset: nat,
                              fragment: Bytes, admitted: bool)
    requires Inv(codec, maximum, t)
    ensures
      var rows, log := Rows(t, id), Content(Rows(t, id));
      Append(codec, maximum, t, id, source, offset, fragment, admitted).Commit? <==>
        && admitted && 0 < source.total <= maximum
        && 0 < |fragment| <= 65_536 && offset + |fragment| <= source.total
        && (forall i :: 0 <= i < |rows| ==> rows[i].source == source)
        && if offset < |log| then
             exists i :: 0 <= i < |rows| && rows[i].offset == offset && rows[i].fragment == fragment
           else
             && offset == |log|
             && (|log + fragment| == source.total ==>
                   codec.digest(log + fragment) == source.digest && codec.canonical(log + fragment))
  {
    var rows := Rows(t, id);
    ContentLength(rows);
    if fragment != [] && offset == TotalLength(rows) && offset + |fragment| <= source.total {
      TilesExtend(rows, Chunk(offset, source, fragment));
      TilesJoin(rows + [Chunk(offset, source, fragment)], source.total);
    }
  }

  lemma {:induction false} ChunkInContent(rows: seq<Chunk>, i: nat)
    requires Tiles(rows) && i < |rows|
    ensures rows[i].offset + |rows[i].fragment| <= |Content(rows)|
    ensures Content(rows)[rows[i].offset..rows[i].offset + |rows[i].fragment|] == rows[i].fragment
  {
    ContentLength(rows);
    ContentLength(rows[..|rows| - 1]);
    if i + 1 < |rows| { ChunkInContent(rows[..|rows| - 1], i); }
  }

  lemma {:induction false} RunKeepsInv(codec: Codec, maximum: nat, commands: seq<Command>)
    ensures Inv(codec, maximum, Run(codec, maximum, map[], commands))
  {
    if commands != [] {
      var before := commands[..|commands| - 1];
      RunKeepsInv(codec, maximum, before);
      var c := commands[|commands| - 1];
      AppendExtendsTheLog(codec, maximum, Run(codec, maximum, map[], before), c.id, c.source, c.offset, c.fragment, c.admitted);
    }
  }

  // ----------------------------------------------------------------- theorems

  /** On every reachable state assembling never meets a gap, and it returns exactly the log's bytes as
      soon as all of them have arrived. */
  lemma AssemblyNeverMeetsAGap(codec: Codec, maximum: nat, commands: seq<Command>, id: UploadId)
    requires Rows(Run(codec, maximum, map[], commands), id) != []
    ensures
      var rows := Rows(Run(codec, maximum, map[], commands), id);
      Assemble(codec, rows, rows[0].source) ==
        if |Content(rows)| == rows[0].source.total then Whole(Content(rows)) else Incomplete
  {
    RunKeepsInv(codec, maximum, commands);
    var rows := Rows(Run(codec, maximum, map[], commands), id);
    assert UploadOk(codec, maximum, rows);
    ContentLength(rows);
    TilesJoin(rows, rows[0].source.total);
  }

  /** Repeating any saved chunk, with the same source and at any later time, is accepted and changes
      nothing. */
  lemma RepeatsAreHarmless(codec: Codec, maximum: nat, commands: seq<Command>, id: UploadId, i: nat)
    requires i < |Rows(Run(codec, maximum, map[], commands), id)|
    ensures
      var t := Run(codec, maximum, map[], commands);
      var c := Rows(t, id)[i];
      Append(codec, maximum, t, id, c.source, c.offset, c.fragment, true) == Commit(t, TotalLength(Rows(t, id)))
  {
    RunKeepsInv(codec, maximum, commands);
    var rows := Rows(Run(codec, maximum, map[], commands), id);
    assert UploadOk(codec, maximum, rows);
    TilesAscend(rows, i);
  }

  /** The log only grows: later states keep every earlier byte in its place. */
  lemma {:induction false} LogOnlyGrows(codec: Codec, maximum: nat, commands: seq<Command>, n: nat, id: UploadId)
    requires n <= |commands|
    ensures
      Content(Rows(Run(codec, maximum, map[], commands[..n]), id)) <= Content(Rows(Run(codec, maximum, map[], commands), id))
    decreases |commands| - n
  {
    if n == |commands| {
      assert commands[..n] == commands;
    } else {
      LogOnlyGrows(codec, maximum, commands, n + 1, id);
      RunKeepsInv(codec, maximum, commands[..n]);
      var c := commands[n];
      assert commands[..n + 1][..n] == commands[..n];
      AppendExtendsTheLog(codec, maximum, Run(codec, maximum, map[], commands[..n]), c.id, c.source, c.offset, c.fragment, c.admitted);
    }
  }

  // ---------------------------------------------------------- the table in place

  class UploadStore {
    var chunks: Table

    constructor ()
      ensures chunks == map[]
    {
      chunks := map[];
    }

    method Received(id: UploadId, source: Source) returns (answer: Result<nat>)
      ensures answer ==
        if SourceChanged(Rows(chunks, id), source) then Err(InvalidInput) else Ok(TotalLength(Rows(chunks, id)))
    {
      var rows := Rows(chunks, id);
      var sum := 0;
      for i := 0 to |rows|
        invariant sum == TotalLength(rows[..i])
        invariant !SourceChanged(rows[..i], source)
      {
        if rows[i].source != source { return Err(InvalidInput); }
        assert rows[..i + 1][..i] == rows[..i];
        sum := sum + |rows[i].fragment|;
      }
      assert rows[..|rows|] == rows;
      return Ok(sum);
    }

    /** Grow the content chunk by chunk, checking that each starts where the last one ended. */
    method AssembleNow(codec: Codec, id: UploadId, source: Source) returns (assembly: Assembly)
      ensures assembly == Assemble(codec, Rows(chunks, id), source)
    {
      var rows := Ordered(Rows(chunks, id));
      var content: Bytes := [];
      for i := 0 to |rows|
        invariant Joined(rows[..i], source.total) == Some(content)
      {
        assert rows[..i + 1][..i] == rows[..i];
        if rows[i].offset != |content| || |content| + |rows[i].fragment| > source.total {
          GapStays(rows, source.total, i + 1);
          return Gap;
        }
        content := content + rows[i].fragment;
      }
      assert rows[..|rows|] == rows;
      if |content| != source.total || codec.digest(content) != source.digest { return Incomplete; }
      if !codec.canonical(content) { return NotCanonical; }
      return Whole(content);
    }

    method AppendChunk(codec: Codec, maximum: nat, id: UploadId, source: Source, offset: nat, fragment: Bytes, admitted: bool)
      returns (answer: Result<nat>)
      modifies this
      ensures chunks == After(old(chunks), Append(codec, maximum, old(chunks), id, source, offset, fragment, admitted))
      ensures answer == Answer(Append(codec, maximum, old(chunks), id, source, offset, fragment, admitted))
    {
      if source.total == 0 || source.total > maximum { return Err(InvalidInput); }
      if fragment == [] || |fragment| > MAX_FRAGMENT || offset + |fragment| > source.total { return Err(InvalidInput); }
      if !admitted { return Err(InvalidInput); }
      var received := Received(id, source);
      if received.Err? { return Err(received.error); }
      var count := received.value;
      var rows := Rows(chunks, id);
      if offset < count {
        if Saved(rows, offset, fragment) { return Ok(count); }
        return Err(InvalidInput);
      }
      if offset != count { return Err(InvalidInput); }
      var stored := Store(codec, id, source, Chunk(offset, source, fragment));
      if !stored { return Err(InvalidInput); }
      return Ok(offset + |fragment|);
    }

    /** Insert the chunk; the last one stays only if the whole upload checks out. */
    method Store(codec: Codec, id: UploadId, source: Source, c: Chunk) returns (stored: bool)
      modifies this
      ensures
        var extended := Rows(old(chunks), id) + [c];
        && stored == (c.offset + |c.fragment| == source.total ==> Assemble(codec, extended, source).Whole?)
        && chunks == if stored then old(chunks)[id := extended] else old(chunks)
    {
      var saved := chunks;
      chunks := chunks[id := Rows(chunks, id) + [c]];
      stored := true;
      if c.offset + |c.fragment| == source.total {
        var assembly := AssembleNow(codec, id, source);
        stored := assembly.Whole?;
        if !stored { chunks := saved; }
      }
    }
  }

  lemma {:induction false} GapStays(rows: seq<Chunk>, total: nat, i: nat)
    requires i <= |rows| && Joined(rows[..i], total).None?
    ensures Joined(rows, total).None?
    decreases |rows| - i
  {
    if i < |rows| {
      assert rows[..i + 1][..i] == rows[..i];
      GapStays(rows, total, i + 1);
    } else {
      assert rows[..i] == rows;
    }
  }
}
