/** The scoring front end (src/neuralNetwork.h): a direct-mapped cache of n-gram scores
    in front of the network, the adapter that pads or truncates a token array to the
    model's n-gram width, and the guard around `premultiply`.

    The network's forward pass is not part of this model: the score of an n-gram is a
    deterministic function `score` passed in, and `Eigen::hash_value` is a function
    `hash` passed in. */
module Network {
  import opened Results
  import Model

  /** The n-gram columns the cache keys hold; `-1` fills an empty slot. */
  type Ngram = seq<int>

  /** The state of a `neuralNetwork` the cache logic touches: the model, the n-gram
      width the network was last resized to, and the cache with its two counters.
      `keys[i]` is column `i` of the key matrix and `values[i]` the score stored for it. */
  datatype Net = Net(
    model: Model.LanguageModel,
    ngramSize: int,
    cacheSize: nat,
    keys: seq<Ngram>,
    values: seq<real>,
    lookups: int,
    hits: int)

  /** The key of an empty slot: `ngram_size` copies of -1. */
  function Sentinel(width: nat): (k: Ngram)
    ensures |k| == width && forall i :: 0 <= i < width ==> k[i] == -1
  {
    seq(width, _ => -1)
  }

  /** What the asserts of the cache operations demand: the width agrees with the model
      it was taken from, whose topology a successful read has validated. */
  predicate Synced(net: Net) {
    Model.ValidTopology(net.model.topology) && net.ngramSize == net.model.topology.ngramSize
  }

  /** The shape of the cache: one key column and one value per slot, each key as wide
      as the n-grams the network scores. */
  predicate Shaped(net: Net) {
    && |net.keys| == net.cacheSize
    && |net.values| == net.cacheSize
    && forall i :: 0 <= i < |net.keys| ==> |net.keys[i]| == net.ngramSize
  }

  /** `std::vector::resize`: keep the first `n` elements and pad with zeros. */
  function ResizeValues(values: seq<real>, n: nat): (r: seq<real>)
    ensures |r| == n
    ensures forall i :: 0 <= i < n && i < |values| ==> r[i] == values[i]
    ensures forall i :: |values| <= i < n ==> r[i] == 0.0
  {
    if n <= |values| then values[..n] else values + seq(n - |values|, _ => 0.0)
  }

  /** `set_cache`: `n` empty slots, both counters zero. The stored values survive the
      resize, but no key matches a real n-gram, so none of them can be returned. */
  function SetCache(net: Net, n: nat): (r: Net)
    requires Synced(net)
    ensures Synced(r) && Shaped(r)
    ensures r.cacheSize == n && r.lookups == 0 && r.hits == 0
    ensures forall i :: 0 <= i < n ==> r.keys[i] == Sentinel(net.ngramSize)
    ensures r.model == net.model && r.ngramSize == net.ngramSize
  {
    net.(cacheSize := n, keys := seq(n, _ => Sentinel(net.ngramSize)),
         values := ResizeValues(net.values, n), lookups := 0, hits := 0)
  }

  /** `resize`: take the width from the (possibly reread) model; when caching is on,
      every slot is emptied for the new width. */
  function Resize(net: Net): (r: Net)
    requires Model.ValidTopology(net.model.topology)
    requires Shaped(net)
    ensures Synced(r) && Shaped(r)
    ensures r.cacheSize == net.cacheSize && r.values == net.values
    ensures r.lookups == net.lookups && r.hits == net.hits
    ensures net.cacheSize > 0 ==> forall i :: 0 <= i < r.cacheSize ==> r.keys[i] == Sentinel(r.ngramSize)
    ensures net.cacheSize == 0 ==> r.keys == []
  {
    var width := net.model.topology.ngramSize;
    if net.cacheSize != 0 then
      net.(ngramSize := width, keys := seq(net.cacheSize, _ => Sentinel(width)))
    else
      net.(ngramSize := width)
  }

  /** The slot an n-gram maps to. */
  function Slot(net: Net, ngram: Ngram, hash: Ngram -> nat): (i: nat)
    requires net.cacheSize > 0
    ensures i < net.cacheSize
  {
    hash(ngram) % net.cacheSize
  }

  datatype Scored = Scored(net: Net, value: real)

  /** Single-column `lookup_ngram`. With caching off the score is computed and nothing
      changes. Otherwise the probe counts as a lookup; a key equal to the probe in its
      slot is a hit and returns the stored value, and a miss computes the score and
      overwrites that slot with the probe and its score. */
  function Lookup(net: Net, ngram: Ngram, hash: Ngram -> nat, score: Ngram -> real): (r: Scored)
    requires Synced(net) && Shaped(net) && |ngram| == net.ngramSize
    ensures Synced(r.net) && Shaped(r.net)
    ensures r.net.model == net.model && r.net.ngramSize == net.ngramSize
    ensures r.net.cacheSize == net.cacheSize
    ensures net.cacheSize == 0 ==> r == Scored(net, score(ngram))
    ensures net.cacheSize > 0 ==>
      var slot := Slot(net, ngram, hash);
      && r.net.lookups == net.lookups + 1
      && (if net.keys[slot] == ngram then
            r == Scored(net.(lookups := net.lookups + 1, hits := net.hits + 1), net.values[slot])
          else
            && r.net.hits == net.hits
            && r.value == score(ngram)
            && r.net.keys[slot] == ngram && r.net.values[slot] == r.value
            && (forall i :: 0 <= i < net.cacheSize && i != slot ==>
                  r.net.keys[i] == net.keys[i] && r.net.values[i] == net.values[i]))
  {
    if net.cacheSize == 0 then Scored(net, score(ngram))
    else
      var slot := Slot(net, ngram, hash);
      var counted := net.(lookups := net.lookups + 1);
      if net.keys[slot] == ngram then
        Scored(counted.(hits := net.hits + 1), net.values[slot])
      else
        var v := score(ngram);
        Scored(counted.(keys := net.keys[slot := ngram], values := net.values[slot := v]), v)
  }

  // The transparency invariant: caching never changes the answer.

  /** Every slot whose key is not the empty-slot sentinel holds the score of its key. */
  ghost predicate Coherent(net: Net, score: Ngram -> real)
    requires Shaped(net)
  {
    forall i :: 0 <= i < |net.keys| && net.keys[i] != Sentinel(|net.keys[i]|) ==>
      net.values[i] == score(net.keys[i])
  }

  /** Token ids are word indices, never negative. */
  predicate Tokens(ngram: Ngram) {
    forall i :: 0 <= i < |ngram| ==> ngram[i] >= 0
  }

  /** A freshly sized cache holds no key but the sentinel, so it is coherent whatever
      values it kept. */
  lemma SetCacheCoherent(net: Net, n: nat, score: Ngram -> real)
    requires Synced(net)
    ensures Coherent(SetCache(net, n), score)
  {
  }

  /** A resize with caching on empties every slot; with caching off there are none. */
  lemma ResizeCoherent(net: Net, score: Ngram -> real)
    requires Model.ValidTopology(net.model.topology) && Shaped(net)
    ensures Coherent(Resize(net), score)
  {
  }

  /** A probe of real tokens never matches an empty slot. */
  lemma TokensAreNotSentinel(ngram: Ngram)
    requires Tokens(ngram) && |ngram| > 0
    ensures ngram != Sentinel(|ngram|)
  {
    assert ngram[0] != Sentinel(|ngram|)[0];
  }

  /** With real tokens, a lookup through a coherent cache returns exactly the uncached
      score, and leaves the cache coherent. */
  lemma LookupIsTransparent(net: Net, ngram: Ngram, hash: Ngram -> nat, score: Ngram -> real)
    requires Synced(net) && Shaped(net) && |ngram| == net.ngramSize
    requires Coherent(net, score) && Tokens(ngram)
    ensures Lookup(net, ngram, hash, score).value == score(ngram)
    ensures Coherent(Lookup(net, ngram, hash, score).net, score)
  {
    TokensAreNotSentinel(ngram);
    var r := Lookup(net, ngram, hash, score);
    if net.cacheSize > 0 {
      var slot := Slot(net, ngram, hash);
      forall i | 0 <= i < |r.net.keys| && r.net.keys[i] != Sentinel(|r.net.keys[i]|)
        ensures r.net.values[i] == score(r.net.keys[i])
      {
        if i != slot || net.keys[slot] == ngram {
          assert r.net.keys[i] == net.keys[i] && r.net.values[i] == net.values[i];
        }
      }
    }
  }

  /** Why token ids must be non-negative: a probe of all -1 into a cache that was just
      sized "hits" the empty slot and returns the value left there, not the score. */
  lemma SentinelProbeFalselyHits(net: Net, hash: Ngram -> nat, score: Ngram -> real)
    requires Synced(net)
    requires |net.values| >= 1 && score(Sentinel(net.ngramSize)) != net.values[0]
    ensures var cleared := SetCache(net, 1);
      && Lookup(cleared, Sentinel(net.ngramSize), hash, score).value == net.values[0]
      && Lookup(cleared, Sentinel(net.ngramSize), hash, score).value != score(Sentinel(net.ngramSize))
      && Lookup(cleared, Sentinel(net.ngramSize), hash, score).net.hits == 1
  {
    var cleared := SetCache(net, 1);
    assert Slot(cleared, Sentinel(net.ngramSize), hash) == 0;
  }

  /** Looking the same n-gram up again straight away is a hit with the same answer. */
  lemma RepeatedLookupHits(net: Net, ngram: Ngram, hash: Ngram -> nat, score: Ngram -> real)
    requires Synced(net) && Shaped(net) && |ngram| == net.ngramSize && net.cacheSize > 0
    ensures var first := Lookup(net, ngram, hash, score);
      var second := Lookup(first.net, ngram, hash, score);
      && second.value == first.value
      && second.net.hits == first.net.hits + 1
      && second.net.keys == first.net.keys && second.net.values == first.net.values
  {
    var first := Lookup(net, ngram, hash, score);
    assert Slot(first.net, ngram, hash) == Slot(net, ngram, hash);
  }

  // The counters.

  /** What the counters mean: every hit was a lookup. */
  predicate Counted(net: Net) {
    0 <= net.hits <= net.lookups
  }

  lemma LookupCounted(net: Net, ngram: Ngram, hash: Ngram -> nat, score: Ngram -> real)
    requires Synced(net) && Shaped(net) && |ngram| == net.ngramSize && Counted(net)
    ensures Counted(Lookup(net, ngram, hash, score).net)
  {
  }

  /** `cache_hit_rate`: hits over lookups. The division is in `double`, so before the
      first lookup it is 0/0, a NaN, here `None`. */
  function CacheHitRate(net: Net): (r: Option<real>)
    requires Counted(net)
    ensures r.Some? <==> net.lookups > 0
    ensures r.Some? ==> 0.0 <= r.value <= 1.0 && r.value * (net.lookups as real) == net.hits as real
  {
    if net.lookups == 0 then None else Some((net.hits as real) / (net.lookups as real))
  }

  // Padding a token array to the n-gram width.

  /** The n-gram `lookup_ngram_start_null` scores for the first `n` tokens of `a`: the
      last `want` of them when there are enough, otherwise all of them behind
      `want - n` copies of `start` (when the array begins with `start`) or of `nullId`. */
  function PaddedNgram(a: seq<int>, n: int, want: int, start: int, nullId: int): (r: Ngram)
    requires 1 <= n <= |a| && want >= 0
    ensures |r| == want
    ensures forall k :: 0 <= k < want && want - n <= k ==> r[k] == a[k + n - want]
    ensures forall k :: 0 <= k < want - n ==> r[k] == (if a[0] == start then start else nullId)
    ensures want >= 1 ==> r[want - 1] == a[n - 1]
  {
    if want <= n then a[n - want..n]
    else
      var fill := if a[0] == start then start else nullId;
      seq(want - n, _ => fill) + a[..n]
  }

  /** The two loops of `lookup_ngram_start_null` that fill the n-gram. */
  method AssembleNgram(a: seq<int>, n: int, want: int, start: int, nullId: int) returns (r: Ngram)
    requires 1 <= n <= |a| && want >= 0
    ensures r == PaddedNgram(a, n, want, start, nullId)
  {
    var ngram := seq(want, _ => 0);
    var missing := want - n;
    var i := 0;
    var p := 0;
    if missing > 0 {
      var fill := if a[0] == start then start else nullId;
      while i < missing
        invariant 0 <= i <= missing && |ngram| == want
        invariant forall k :: 0 <= k < i ==> ngram[k] == fill
      {
        ngram := ngram[i := fill];
        i := i + 1;
      }
    } else {
      p := -missing;
    }
    while i < want
      invariant |ngram| == want
      invariant missing > 0 ==> i >= missing && p == i - missing
      invariant missing <= 0 ==> p == i - missing
      invariant i <= want
      invariant 0 <= p <= n
      invariant missing > 0 ==> forall k :: 0 <= k < missing ==> ngram[k] == (if a[0] == start then start else nullId)
      invariant forall k :: (if missing > 0 then missing else 0) <= k < i ==> ngram[k] == a[k - missing]
    {
      ngram := ngram[i := a[p]];
      i := i + 1;
      p := p + 1;
    }
    r := ngram;
  }

  /** `lookup_ngram_start_null`: pad or truncate to the network's width, then look up. */
  method LookupStartNull(net: Net, a: seq<int>, n: int, start: int, nullId: int,
                         hash: Ngram -> nat, score: Ngram -> real) returns (r: Scored)
    requires Synced(net) && Shaped(net) && 1 <= n <= |a|
    ensures r == Lookup(net, PaddedNgram(a, n, net.ngramSize, start, nullId), hash, score)
  {
    var ngram := AssembleNgram(a, n, net.ngramSize, start, nullId);
    r := Lookup(net, ngram, hash, score);
  }

  /** With a coherent cache and real tokens (the fill tokens included), the padded lookup
      scores the padded n-gram and keeps the cache coherent. */
  lemma PaddedLookupScores(net: Net, a: seq<int>, n: int, start: int, nullId: int,
                           hash: Ngram -> nat, score: Ngram -> real)
    requires Synced(net) && Shaped(net) && 1 <= n <= |a| && Coherent(net, score)
    requires forall i :: 0 <= i < |a| ==> a[i] >= 0
    requires start >= 0 && nullId >= 0
    ensures var g := PaddedNgram(a, n, net.ngramSize, start, nullId);
      && Lookup(net, g, hash, score).value == score(g)
      && Coherent(Lookup(net, g, hash, score).net, score)
  {
    var g := PaddedNgram(a, n, net.ngramSize, start, nullId);
    assert Tokens(g);
    LookupIsTransparent(net, g, hash, score);
  }

  lemma PaddedExampleShort()
    ensures PaddedNgram([5], 1, 4, 1, 0) == [0, 0, 0, 5]
    ensures PaddedNgram([1, 5], 2, 4, 1, 0) == [1, 1, 1, 5]
  {
  }

  lemma PaddedExampleLong()
    ensures PaddedNgram([7, 8, 9, 10, 11], 5, 3, 1, 0) == [9, 10, 11]
    ensures PaddedNgram([7, 8, 9, 10, 11], 4, 3, 1, 0) == [8, 9, 10]
  {
  }

  // Batch lookup.

  /** The batch `lookup_ngram`: scores every column; it neither reads nor writes the cache
      or its counters. */
  function LookupBatch(net: Net, ngrams: seq<Ngram>, score: Ngram -> real): (r: seq<real>)
    requires Synced(net)
    requires forall j :: 0 <= j < |ngrams| ==> |ngrams[j]| == net.ngramSize
    ensures |r| == |ngrams|
  {
    seq(|ngrams|, j requires 0 <= j < |ngrams| => score(ngrams[j]))
  }

  /** Single lookups one column after another, threading the cache through. */
  function LookupEach(net: Net, ngrams: seq<Ngram>, hash: Ngram -> nat, score: Ngram -> real)
    : (r: (Net, seq<real>))
    requires Synced(net) && Shaped(net)
    requires forall j :: 0 <= j < |ngrams| ==> |ngrams[j]| == net.ngramSize
    ensures |r.1| == |ngrams|
    ensures Synced(r.0) && Shaped(r.0) && r.0.ngramSize == net.ngramSize
    decreases |ngrams|
  {
    if |ngrams| == 0 then (net, [])
    else
      var first := Lookup(net, ngrams[0], hash, score);
      var rest := LookupEach(first.net, ngrams[1..], hash, score);
      (rest.0, [first.value] + rest.1)
  }

  /** The cached single lookups give the batch's answers, column for column. */
  lemma {:induction false} BatchAgreesWithCachedLookups(net: Net, ngrams: seq<Ngram>,
                                                        hash: Ngram -> nat, score: Ngram -> real)
    requires Synced(net) && Shaped(net) && Coherent(net, score)
    requires forall j :: 0 <= j < |ngrams| ==> |ngrams[j]| == net.ngramSize && Tokens(ngrams[j])
    ensures LookupEach(net, ngrams, hash, score).1 == LookupBatch(net, ngrams, score)
    decreases |ngrams|
  {
    if |ngrams| > 0 {
      var first := Lookup(net, ngrams[0], hash, score);
      LookupIsTransparent(net, ngrams[0], hash, score);
      BatchAgreesWithCachedLookups(first.net, ngrams[1..], hash, score);
      var each := LookupEach(net, ngrams, hash, score).1;
      var batch := LookupBatch(net, ngrams, score);
      forall j | 0 <= j < |ngrams| ensures each[j] == batch[j] {
        if j > 0 {
          assert each[j] == LookupEach(first.net, ngrams[1..], hash, score).1[j - 1];
          assert LookupBatch(first.net, ngrams[1..], score)[j - 1] == score(ngrams[j]);
        }
      }
    }
  }

  // The premultiply guard.

  /** `neuralNetwork::premultiply`: premultiply the model unless it already is. */
  function PremultiplyOnce(net: Net): (r: Net)
    requires Model.WellShaped(net.model)
    ensures r.model.premultiplied && Model.WellShaped(r.model)
    ensures net.model.premultiplied ==> r == net
    ensures !net.model.premultiplied ==> r.model == Model.Premultiply(net.model)
    ensures r == net.(model := r.model)
  {
    if !net.model.premultiplied then net.(model := Model.Premultiply(net.model)) else net
  }

  lemma PremultiplyOnceIdempotent(net: Net)
    requires Model.WellShaped(net.model)
    ensures PremultiplyOnce(PremultiplyOnce(net)) == PremultiplyOnce(net)
  {
  }
}
