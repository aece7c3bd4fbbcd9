/**
 * How the LLM client streams a finished text back to its caller: slices of
 * at most 100 characters, each marked not done, followed by one empty chunk
 * marked done. A stream is modelled as the finite sequence of chunks the
 * generator yields.
 */
module Streaming {

  /** Slice length used by both the tool path and the LLM path. */
  const ChunkSize: nat := 100

  /** The `type` field of a chunk. */
  datatype Kind = ToolResponse | LlmResponse | Error

  /** One yielded `{"response": text, "type": kind, "done": done}`. */
  datatype Chunk = Chunk(text: string, kind: Kind, done: bool)

  /** A stream as the caller sees it: only its last chunk is marked done, and all chunks share one kind. */
  predicate WellFormed(cs: seq<Chunk>) {
    && |cs| > 0
    && cs[|cs| - 1].done
    && (forall i :: 0 <= i < |cs| - 1 ==> !cs[i].done)
    && (forall i :: 0 <= i < |cs| ==> cs[i].kind == cs[0].kind)
  }

  /** The texts of a list of chunks, concatenated. */
  function Concat(cs: seq<Chunk>): string
    decreases |cs|
  {
    if |cs| == 0 then "" else cs[0].text + Concat(cs[1..])
  }

  /**
   * The data chunks `text[i:i+100]` for `i` in `range(0, len(text), 100)`:
   * they rebuild the text, all but the last are exactly 100 characters
   * long, the last is 1 to 100 long, and there are `ceil(len/100)` of them.
   */
  function DataChunks(text: string, kind: Kind): (cs: seq<Chunk>)
    ensures Concat(cs) == text
    ensures |cs| == (|text| + ChunkSize - 1) / ChunkSize
    ensures forall i :: 0 <= i < |cs| ==> cs[i].kind == kind && !cs[i].done
    ensures forall i :: 0 <= i < |cs| - 1 ==> |cs[i].text| == ChunkSize
    ensures |cs| > 0 ==> 0 < |cs[|cs| - 1].text| <= ChunkSize
    decreases |text|
  {
    if |text| == 0 then []
    else if |text| <= ChunkSize then [Chunk(text, kind, false)]
    else
      var rest := DataChunks(text[ChunkSize..], kind);
      var cs := [Chunk(text[..ChunkSize], kind, false)] + rest;
      assert cs[1..] == rest;
      assert text == text[..ChunkSize] + text[ChunkSize..];
      cs
  }

  /** The data chunks followed by the terminal `{"response": "", "done": True}` chunk of the same kind. */
  function Chunks(text: string, kind: Kind): (cs: seq<Chunk>)
    ensures WellFormed(cs)
    ensures cs[|cs| - 1] == Chunk("", kind, true)
    ensures cs[..|cs| - 1] == DataChunks(text, kind)
    ensures Concat(cs) == text
    ensures |text| == 0 <==> |cs| == 1
  {
    var data := DataChunks(text, kind);
    ConcatAppend(data, [Chunk("", kind, true)]);
    data + [Chunk("", kind, true)]
  }

  lemma {:induction false} ConcatAppend(a: seq<Chunk>, b: seq<Chunk>)
    ensures Concat(a + b) == Concat(a) + Concat(b)
    decreases |a|
  {
    if |a| == 0 {
      assert a + b == b;
    } else {
      assert (a + b)[1..] == a[1..] + b;
      ConcatAppend(a[1..], b);
    }
  }

  /** One step of the generator: the next slice starts at `i` and ends at `j`. */
  lemma DataChunksStep(text: string, kind: Kind, i: nat, j: nat)
    requires i < |text|
    requires j == if i + ChunkSize <= |text| then i + ChunkSize else |text|
    ensures DataChunks(text[i..], kind) == [Chunk(text[i..j], kind, false)] + DataChunks(text[j..], kind)
  {
    var rest := text[i..];
    assert rest[..j - i] == text[i..j];
    if |rest| > ChunkSize {
      assert rest[ChunkSize..] == text[j..];
    } else {
      assert text[j..] == [];
    }
  }

  /** Yielding the slice `text[i..j]` keeps the chunks yielded so far a prefix of all data chunks. */
  lemma StepKeepsPrefix(text: string, kind: Kind, out: seq<Chunk>, i: nat, j: nat)
    requires i < |text|
    requires j == if i + ChunkSize <= |text| then i + ChunkSize else |text|
    requires out + DataChunks(text[i..], kind) == DataChunks(text, kind)
    ensures (out + [Chunk(text[i..j], kind, false)]) + DataChunks(text[j..], kind) == DataChunks(text, kind)
  {
    DataChunksStep(text, kind, i, j);
    var c := Chunk(text[i..j], kind, false);
    AppendAssoc(out, [c], DataChunks(text[j..], kind));
  }

  lemma AppendAssoc(a: seq<Chunk>, b: seq<Chunk>, c: seq<Chunk>)
    ensures a + (b + c) == (a + b) + c
  {
  }

  /** Once the whole text has been walked, the terminal chunk completes the stream. */
  lemma StreamEnd(text: string, kind: Kind, out: seq<Chunk>)
    requires out + DataChunks(text[|text|..], kind) == DataChunks(text, kind)
    ensures out + [Chunk("", kind, true)] == Chunks(text, kind)
  {
    assert text[|text|..] == [];
    assert out + [] == out;
  }

  /**
   * The generator loop itself: it walks the text in steps of 100 and yields
   * one slice per step, then the terminal chunk.
   */
  method StreamText(text: string, kind: Kind) returns (out: seq<Chunk>)
    ensures out == Chunks(text, kind)
  {
    out := [];
    var i := 0;
    while i < |text|
      invariant 0 <= i <= |text|
      invariant out + DataChunks(text[i..], kind) == DataChunks(text, kind)
      decreases |text| - i
    {
      var j: nat := |text|;
      if i + ChunkSize <= |text| {
        j := i + ChunkSize;
      }
      StepKeepsPrefix(text, kind, out, i, j);
      out := out + [Chunk(text[i..j], kind, false)];
      i := j;
    }
    StreamEnd(text, kind, out);
    out := out + [Chunk("", kind, true)];
  }
}
