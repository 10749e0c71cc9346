/** The model's topology and parameters (src/model.cpp): the six topology integers,
    the layer matrices whose shapes `resize` derives from them, and the one-way
    premultiplication that fuses the embedding lookup into the first linear stage. */
module Model {
  import opened Matrices

  /** The six integers every layer dimension is derived from. */
  datatype Topology = Topology(
    ngramSize: int,
    inputVocabSize: int,
    outputVocabSize: int,
    inputEmbeddingDimension: int,
    numHidden: int,
    outputEmbeddingDimension: int)

  /** Dimensions the layer resizes accept: room for the target position and no negative size. */
  predicate ValidTopology(t: Topology) {
    && t.ngramSize >= 1
    && t.inputVocabSize >= 0
    && t.outputVocabSize >= 0
    && t.inputEmbeddingDimension >= 0
    && t.numHidden >= 0
    && t.outputEmbeddingDimension >= 0
  }

  /** Number of context positions: every n-gram position but the target. */
  function ContextSize(t: Topology): int {
    t.ngramSize - 1
  }

  /** Output width of the first linear stage; with no hidden layer the first stage
      feeds the output embedding directly. */
  function FirstStageRows(t: Topology): int {
    if t.numHidden == 0 then t.outputEmbeddingDimension else t.numHidden
  }

  /** The parameters of a `model`. Each linear layer holds its weight matrix and its
      bias column; activation layers only have a size. */
  datatype LanguageModel = LanguageModel(
    topology: Topology,
    activation: string,
    premultiplied: bool,
    inputEmbeddings: Matrix,
    hiddenWeights1: Matrix,
    hiddenBiases1: Matrix,
    firstActivationSize: int,
    hiddenWeights2: Matrix,
    hiddenBiases2: Matrix,
    secondActivationSize: int,
    outputWeights: Matrix,
    outputBiases: Matrix)

  /** The shape invariant: every layer's dimensions follow from the topology alone.
      A premultiplied model keeps a 1x1 placeholder embedding table and a first-stage
      matrix with one column per (context position, input word). */
  ghost predicate WellShaped(m: LanguageModel) {
    var t := m.topology;
    var ctx := ContextSize(t);
    var rows1 := FirstStageRows(t);
    && ValidTopology(t)
    && (if m.premultiplied then
          IsMatrix(m.inputEmbeddings, 1, 1)
          && IsMatrix(m.hiddenWeights1, rows1, t.inputVocabSize * ctx)
        else
          IsMatrix(m.inputEmbeddings, t.inputVocabSize, t.inputEmbeddingDimension)
          && IsMatrix(m.hiddenWeights1, rows1, t.inputEmbeddingDimension * ctx))
    && IsMatrix(m.hiddenBiases1, rows1, 1)
    && m.firstActivationSize == rows1
    && (if t.numHidden == 0 then
          IsMatrix(m.hiddenWeights2, 1, 1) && IsMatrix(m.hiddenBiases2, 1, 1)
          && m.secondActivationSize == 1
        else
          IsMatrix(m.hiddenWeights2, t.outputEmbeddingDimension, t.numHidden)
          && IsMatrix(m.hiddenBiases2, t.outputEmbeddingDimension, 1)
          && m.secondActivationSize == t.outputEmbeddingDimension)
    && IsMatrix(m.outputWeights, t.outputVocabSize, t.outputEmbeddingDimension)
    && IsMatrix(m.outputBiases, t.outputVocabSize, 1)
  }

  /** `model::resize`: stores the topology, gives every layer its derived dimensions
      and clears the premultiplied flag. */
  function Resize(m: LanguageModel, t: Topology): (r: LanguageModel)
    requires ValidTopology(t)
    ensures r.topology == t && r.activation == m.activation && !r.premultiplied
    ensures WellShaped(r)
  {
    var ctx := ContextSize(t);
    var rows1 := FirstStageRows(t);
    var rows2 := if t.numHidden == 0 then 1 else t.outputEmbeddingDimension;
    var cols2 := if t.numHidden == 0 then 1 else t.numHidden;
    LanguageModel(
      t, m.activation, false,
      Zero(t.inputVocabSize, t.inputEmbeddingDimension),
      Zero(rows1, t.inputEmbeddingDimension * ctx), Zero(rows1, 1), rows1,
      Zero(rows2, cols2), Zero(rows2, 1), rows2,
      Zero(t.outputVocabSize, t.outputEmbeddingDimension), Zero(t.outputVocabSize, 1))
  }

  /** The dimensions `resize` gives the two linear stages, in both branches on `num_hidden`. */
  lemma ResizeStageShapes(m: LanguageModel, t: Topology)
    requires ValidTopology(t)
    ensures var r := Resize(m, t);
      && IsMatrix(r.inputEmbeddings, t.inputVocabSize, t.inputEmbeddingDimension)
      && IsMatrix(r.outputWeights, t.outputVocabSize, t.outputEmbeddingDimension)
      && (t.numHidden == 0 ==>
            IsMatrix(r.hiddenWeights1, t.outputEmbeddingDimension, t.inputEmbeddingDimension * (t.ngramSize - 1))
            && IsMatrix(r.hiddenWeights2, 1, 1))
      && (t.numHidden != 0 ==>
            IsMatrix(r.hiddenWeights1, t.numHidden, t.inputEmbeddingDimension * (t.ngramSize - 1))
            && IsMatrix(r.hiddenWeights2, t.outputEmbeddingDimension, t.numHidden))
  {
  }

  // Premultiplication.

  lemma MulSplit(k: nat, n: nat)
    requires n >= 1
    ensures k * n == k + k * (n - 1) && k * (n - 1) >= 0
  {
  }

  /** One row of the fused first-stage matrix: for each context position `i`, the block
      `u_i * w.transpose()`, where `u_i` is the `i`-th width-`dim` chunk of `u`. */
  function FuseRow(u: Vector, w: Matrix, dim: nat, ctx: nat): (r: Vector)
    requires |u| == dim * ctx
    requires forall v :: 0 <= v < |w| ==> |w[v]| == dim
    ensures |r| == |w| * ctx
    decreases ctx
  {
    if ctx == 0 then []
    else
      MulSplit(dim, ctx);
      MulSplit(|w|, ctx);
      TimesTranspose(u[..dim], w) + FuseRow(u[dim..], w, dim, ctx - 1)
  }

  /** Block `i` of a fused row is block `i` of the original row times `w.transpose()`. */
  lemma {:induction false} FuseRowChunk(u: Vector, w: Matrix, dim: nat, ctx: nat, i: nat)
    requires |u| == dim * ctx
    requires forall v :: 0 <= v < |w| ==> |w[v]| == dim
    requires i < ctx
    ensures (i + 1) * |w| <= |w| * ctx && (i + 1) * dim <= |u|
    ensures Chunk(FuseRow(u, w, dim, ctx), i, |w|) == TimesTranspose(Chunk(u, i, dim), w)
    decreases i
  {
    BlockBound(i, ctx, |w|);
    BlockBound(i, ctx, dim);
    MulSplit(dim, ctx);
    if i == 0 {
      FuseRowFirst(u, w, dim, ctx);
    } else {
      FuseRowChunk(u[dim..], w, dim, ctx - 1, i - 1);
      FuseRowShift(u, w, dim, ctx, i);
    }
  }

  lemma BlockBound(i: nat, ctx: nat, k: nat)
    requires i < ctx
    ensures (i + 1) * k <= k * ctx && (i + 1) * k <= ctx * k
  {
    assert ctx * k == (i + 1) * k + (ctx - i - 1) * k;
  }

  /** The first block of a fused row is the first block of the row times `w.transpose()`. */
  lemma FuseRowFirst(u: Vector, w: Matrix, dim: nat, ctx: nat)
    requires |u| == dim * ctx
    requires forall v :: 0 <= v < |w| ==> |w[v]| == dim
    requires 0 < ctx
    ensures |w| <= |FuseRow(u, w, dim, ctx)| && dim <= |u|
    ensures Chunk(FuseRow(u, w, dim, ctx), 0, |w|) == TimesTranspose(Chunk(u, 0, dim), w)
  {
    MulSplit(dim, ctx);
    MulSplit(|w|, ctx);
    var head := TimesTranspose(u[..dim], w);
    var tail := FuseRow(u[dim..], w, dim, ctx - 1);
    assert FuseRow(u, w, dim, ctx) == head + tail;
    assert Chunk(u, 0, dim) == u[..dim];
    assert (head + tail)[0..|w|] == head;
  }

  /** A later block of a fused row is the block before it in the row fused from the
      rest of the context. */
  lemma FuseRowShift(u: Vector, w: Matrix, dim: nat, ctx: nat, i: nat)
    requires |u| == dim * ctx
    requires forall v :: 0 <= v < |w| ==> |w[v]| == dim
    requires 1 <= i < ctx
    ensures dim <= |u| && |u[dim..]| == dim * (ctx - 1)
    ensures (i + 1) * |w| <= |FuseRow(u, w, dim, ctx)| && (i + 1) * dim <= |u|
    ensures i * |w| <= |FuseRow(u[dim..], w, dim, ctx - 1)| && i * dim <= |u[dim..]|
    ensures Chunk(FuseRow(u, w, dim, ctx), i, |w|) == Chunk(FuseRow(u[dim..], w, dim, ctx - 1), i - 1, |w|)
    ensures Chunk(u, i, dim) == Chunk(u[dim..], i - 1, dim)
  {
    MulSplit(dim, ctx);
    MulSplit(|w|, ctx);
    BlockBound(i, ctx, |w|);
    BlockBound(i, ctx, dim);
    var head := TimesTranspose(u[..dim], w);
    var tail := FuseRow(u[dim..], w, dim, ctx - 1);
    assert FuseRow(u, w, dim, ctx) == head + tail;
    ChunkAfterFirst(head + tail, i, |w|);
    assert (head + tail)[|w|..] == tail;
    ChunkAfterFirst(u, i, dim);
  }

  /** The fused first-stage matrix `premultiply` builds from `u` and the embedding table `w`. */
  function Fuse(u: Matrix, w: Matrix, dim: nat, ctx: nat): (f: Matrix)
    requires IsMatrix(u, |u|, dim * ctx)
    requires IsMatrix(w, |w|, dim)
    ensures IsMatrix(f, |u|, |w| * ctx)
  {
    seq(|u|, r requires 0 <= r < |u| => FuseRow(u[r], w, dim, ctx))
  }

  /** `model::premultiply`: replaces the first-stage weights by the fused matrix whose
      column block `i` is the old block `i` times the transposed embedding table, shrinks
      the embedding table to 1x1 and sets the premultiplied flag. Nothing else changes. */
  function Premultiply(m: LanguageModel): (r: LanguageModel)
    requires ValidTopology(m.topology)
    requires IsMatrix(m.inputEmbeddings, m.topology.inputVocabSize, m.topology.inputEmbeddingDimension)
    requires IsMatrix(m.hiddenWeights1, FirstStageRows(m.topology),
                      m.topology.inputEmbeddingDimension * ContextSize(m.topology))
    ensures r.premultiplied
    ensures IsMatrix(r.inputEmbeddings, 1, 1)
    ensures IsMatrix(r.hiddenWeights1, FirstStageRows(m.topology),
                     m.topology.inputVocabSize * ContextSize(m.topology))
    ensures r == m.(premultiplied := true, inputEmbeddings := r.inputEmbeddings,
                    hiddenWeights1 := r.hiddenWeights1)
    ensures WellShaped(m) ==> WellShaped(r)
  {
    var t := m.topology;
    m.(premultiplied := true,
       inputEmbeddings := Zero(1, 1),
       hiddenWeights1 := Fuse(m.hiddenWeights1, m.inputEmbeddings, t.inputEmbeddingDimension, ContextSize(t)))
  }

  /** Column block `i` of the premultiplied first stage is the original block `i`
      times the transposed embedding table, row by row. */
  lemma PremultiplyBlocks(m: LanguageModel, row: nat, i: nat)
    requires ValidTopology(m.topology)
    requires IsMatrix(m.inputEmbeddings, m.topology.inputVocabSize, m.topology.inputEmbeddingDimension)
    requires IsMatrix(m.hiddenWeights1, FirstStageRows(m.topology),
                      m.topology.inputEmbeddingDimension * ContextSize(m.topology))
    requires row < FirstStageRows(m.topology) && i < ContextSize(m.topology)
    ensures (i + 1) * m.topology.inputVocabSize <= |Premultiply(m).hiddenWeights1[row]|
    ensures (i + 1) * m.topology.inputEmbeddingDimension <= |m.hiddenWeights1[row]|
    ensures Chunk(Premultiply(m).hiddenWeights1[row], i, m.topology.inputVocabSize)
         == TimesTranspose(Chunk(m.hiddenWeights1[row], i, m.topology.inputEmbeddingDimension),
                           m.inputEmbeddings)
  {
    var t := m.topology;
    FuseRowChunk(m.hiddenWeights1[row], m.inputEmbeddings, t.inputEmbeddingDimension, ContextSize(t), i);
  }

  // The two scoring paths the rewrite must agree on.

  /** The embedding layer's output for a context: the embedding rows of its tokens, concatenated. */
  function Embed(w: Matrix, context: seq<int>): (x: Vector)
    requires forall k :: 0 <= k < |context| ==> 0 <= context[k] < |w|
    decreases |context|
  {
    if |context| == 0 then [] else w[context[0]] + Embed(w, context[1..])
  }

  lemma {:induction false} EmbedLength(w: Matrix, dim: nat, context: seq<int>)
    requires IsMatrix(w, |w|, dim)
    requires forall k :: 0 <= k < |context| ==> 0 <= context[k] < |w|
    ensures |Embed(w, context)| == dim * |context|
    decreases |context|
  {
    if |context| > 0 {
      EmbedLength(w, dim, context[1..]);
      MulSplit(dim, |context|);
    }
  }

  /** The fused path for one first-stage row: for each position `i`, the entry of
      block `i` selected by the token at that position. */
  function FusedSum(row: Vector, vocab: nat, context: seq<int>): real
    requires |row| == vocab * |context|
    requires forall k :: 0 <= k < |context| ==> 0 <= context[k] < vocab
    decreases |context|
  {
    if |context| == 0 then 0.0
    else
      MulSplit(vocab, |context|);
      row[context[0]] + FusedSum(row[vocab..], vocab, context[1..])
  }

  lemma {:induction false} FuseRowAgrees(u: Vector, w: Matrix, dim: nat, context: seq<int>)
    requires IsMatrix(w, |w|, dim)
    requires |u| == dim * |context|
    requires forall k :: 0 <= k < |context| ==> 0 <= context[k] < |w|
    ensures |Embed(w, context)| == |u|
    ensures Dot(u, Embed(w, context)) == FusedSum(FuseRow(u, w, dim, |context|), |w|, context)
    decreases |context|
  {
    EmbedLength(w, dim, context);
    if |context| > 0 {
      var ctx := |context|;
      MulSplit(dim, ctx);
      MulSplit(|w|, ctx);
      var rest := context[1..];
      EmbedLength(w, dim, rest);
      FuseRowAgrees(u[dim..], w, dim, rest);
      assert u == u[..dim] + u[dim..];
      DotAppend(u[..dim], u[dim..], w[context[0]], Embed(w, rest));
      var head := TimesTranspose(u[..dim], w);
      var fused := FuseRow(u, w, dim, ctx);
      assert fused == head + FuseRow(u[dim..], w, dim, ctx - 1);
      assert fused[context[0]] == Dot(u[..dim], w[context[0]]);
      assert fused[|w|..] == FuseRow(u[dim..], w, dim, ctx - 1);
    }
  }

  /** The first stage's pre-activation before premultiplication: the weights times the
      concatenated context embeddings. */
  function FirstStage(m: LanguageModel, context: seq<int>): Vector
    requires ValidTopology(m.topology)
    requires IsMatrix(m.inputEmbeddings, m.topology.inputVocabSize, m.topology.inputEmbeddingDimension)
    requires IsMatrix(m.hiddenWeights1, FirstStageRows(m.topology),
                      m.topology.inputEmbeddingDimension * ContextSize(m.topology))
    requires |context| == ContextSize(m.topology)
    requires forall k :: 0 <= k < |context| ==> 0 <= context[k] < m.topology.inputVocabSize
  {
    EmbedLength(m.inputEmbeddings, m.topology.inputEmbeddingDimension, context);
    MatVec(m.hiddenWeights1, Embed(m.inputEmbeddings, context))
  }

  /** The first stage's pre-activation after premultiplication: per row, the sum of the
      fused columns the context tokens select. */
  function FusedFirstStage(m: LanguageModel, context: seq<int>): Vector
    requires ValidTopology(m.topology)
    requires IsMatrix(m.hiddenWeights1, |m.hiddenWeights1|, m.topology.inputVocabSize * ContextSize(m.topology))
    requires |context| == ContextSize(m.topology)
    requires forall k :: 0 <= k < |context| ==> 0 <= context[k] < m.topology.inputVocabSize
  {
    seq(|m.hiddenWeights1|, r requires 0 <= r < |m.hiddenWeights1| =>
      FusedSum(m.hiddenWeights1[r], m.topology.inputVocabSize, context))
  }

  /** Premultiplication preserves the first stage: for every context of in-vocabulary
      tokens, the fused lookup equals embedding-then-linear. */
  lemma PremultiplyPreservesFirstStage(m: LanguageModel, context: seq<int>)
    requires ValidTopology(m.topology)
    requires IsMatrix(m.inputEmbeddings, m.topology.inputVocabSize, m.topology.inputEmbeddingDimension)
    requires IsMatrix(m.hiddenWeights1, FirstStageRows(m.topology),
                      m.topology.inputEmbeddingDimension * ContextSize(m.topology))
    requires |context| == ContextSize(m.topology)
    requires forall k :: 0 <= k < |context| ==> 0 <= context[k] < m.topology.inputVocabSize
    ensures FusedFirstStage(Premultiply(m), context) == FirstStage(m, context)
  {
    var t := m.topology;
    var p := Premultiply(m);
    forall r | 0 <= r < |m.hiddenWeights1|
      ensures FusedFirstStage(p, context)[r] == FirstStage(m, context)[r]
    {
      FuseRowAgrees(m.hiddenWeights1[r], m.inputEmbeddings, t.inputEmbeddingDimension, context);
    }
  }
}
