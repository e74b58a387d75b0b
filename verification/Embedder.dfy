/**
 * The memo in front of the local embedder (src/embedder.ts): first in, first out, with a copy
 * taken of every vector it keeps and of every vector it hands out. The hash and the raw
 * embedding are given functions; arrays are real heap objects, so aliasing matters.
 */
module Embedding {
  import opened JsMaps
  import opened Messages
  import opened Windows

  /** The hash of a text and its raw embedding. */
  datatype Encoder = Encoder(hash: string -> nat, raw: string -> seq<real>)

  /** The vector is the raw embedding of some requested text with hash `k`. */
  ghost predicate Remembered(encoder: Encoder, asked: seq<string>, k: nat, v: seq<real>) {
    exists i :: 0 <= i < |asked| && encoder.hash(asked[i]) == k && v == encoder.raw(asked[i])
  }

  lemma RememberedLater(encoder: Encoder, asked: seq<string>, text: string, k: nat, v: seq<real>)
    ensures Remembered(encoder, asked, k, v) ==> Remembered(encoder, asked + [text], k, v)
    ensures Remembered(encoder, asked + [text], encoder.hash(text), encoder.raw(text))
  {
    var later := asked + [text];
    assert later[|asked|] == text;
    if Remembered(encoder, asked, k, v) {
      var i :| 0 <= i < |asked| && encoder.hash(asked[i]) == k && v == encoder.raw(asked[i]);
      assert later[i] == asked[i];
    }
  }

  /** The memo after an insertion: the oldest entry gone if it was full, the new one at the end. */
  function Inserted<K, V>(m: OrderedMap<K, V>, k: K, v: V, capacity: nat): OrderedMap<K, V> {
    var u := m.Updated(k, v);
    if |u.keys| > capacity && |u.keys| > 0 then u.Deleted(u.keys[0]) else u
  }

  lemma InsertedKeys<K, V>(m: OrderedMap<K, V>, k: K, v: V, capacity: nat)
    requires m.Valid() && k !in m.values && 0 < capacity && |m.keys| <= capacity
    ensures var r := Inserted(m, k, v, capacity);
            && r.Valid()
            && r.keys == (if |m.keys| < capacity then m.keys else m.keys[1..]) + [k]
            && forall x :: x in r.values ==> if x == k then r.values[x] == v else x in m.values && r.values[x] == m.values[x]
  {
    hide Distinct;
    var u := m.Updated(k, v);
    UpdatedValid(m, k, v);
    if |u.keys| > capacity {
      DropOldest(u);
      assert u.keys[1..] == m.keys[1..] + [k];
    }
  }

  lemma DropOldest<K, V>(u: OrderedMap<K, V>)
    requires u.Valid() && |u.keys| > 0
    ensures u.Deleted(u.keys[0]).Valid() && u.Deleted(u.keys[0]).keys == u.keys[1..]
  {
    DeletedValid(u, u.keys[0]);
  }

  method Copied(s: seq<real>) returns (a: array<real>)
    ensures fresh(a) && a[..] == s
  {
    a := new real[|s|](i requires 0 <= i < |s| => s[i]);
  }

  class TrigramEmbedder {
    const encoder: Encoder
    const cacheSize: nat
    const cache: JsMap<nat, array<real>>
    var hits: nat
    var misses: nat

    /** The vectors the memo keeps for itself. */
    ghost var owned: set<array<real>>
    /** Every text asked for, and the keys of the misses, in order. */
    ghost var calls: seq<string>
    ghost var missed: seq<nat>

    ghost predicate Valid()
      reads this, cache, owned
    {
      && MemoValid()
      && (cacheSize > 0 ==> hits + misses == |calls| && misses == |missed|)
      && (cacheSize == 0 ==> missed == [] && hits == misses == 0)
    }

    ghost predicate MemoValid()
      reads this, cache, owned
    {
      && cache.Valid()
      && (forall k :: k in cache.values ==> cache.values[k] in owned && Remembered(encoder, calls, k, cache.values[k][..]))
      && cache.keys == LastN(missed, cacheSize)
    }

    constructor (encoder: Encoder, cacheSize: nat)
      ensures Valid() && fresh(cache) && owned == {} && calls == []
      ensures this.encoder == encoder && this.cacheSize == cacheSize
    {
      this.encoder := encoder;
      this.cacheSize := cacheSize;
      cache := new JsMap();
      hits, misses := 0, 0;
      owned, calls, missed := {}, [], [];
    }

    /**
     * The result is the caller's own array. It holds the raw embedding of some requested text
     * with the hash of `text`, and the memo evicts in the order of insertion.
     */
    method Embed(text: string) returns (v: array<real>)
      requires Valid()
      modifies this, cache
      ensures Valid() && fresh(v) && v !in owned && fresh(owned - old(owned))
      ensures calls == old(calls) + [text]
      ensures Remembered(encoder, calls, encoder.hash(text), v[..])
      ensures cacheSize == 0 ==> v[..] == encoder.raw(text)
      ensures |cache.keys| <= cacheSize
      ensures var k := encoder.hash(text);
              missed == old(missed) + if cacheSize == 0 || k in old(cache.keys) then [] else [k]
      ensures hits == old(hits) + if cacheSize > 0 && encoder.hash(text) in old(cache.keys) then 1 else 0
    {
      hide Remembered, LastN;
      KeysAreValues(cache.View());
      forall k, u
        ensures Remembered(encoder, calls, k, u) ==> Remembered(encoder, calls + [text], k, u)
        ensures Remembered(encoder, calls + [text], encoder.hash(text), encoder.raw(text))
      {
        RememberedLater(encoder, calls, text, k, u);
      }
      calls := calls + [text];
      if cacheSize == 0 {
        v := Copied(encoder.raw(text));
        return;
      }
      var key := encoder.hash(text);
      if key in cache.values {
        hits := hits + 1;
        v := Copied(cache.values[key][..]);
        return;
      }
      misses := misses + 1;
      v := EmbedMiss(text, key);
    }

    /** A miss: embed, keep a copy, and hand out the original. */
    method EmbedMiss(text: string, key: nat) returns (v: array<real>)
      requires MemoValid() && cacheSize > 0 && key !in cache.values
      requires Remembered(encoder, calls, key, encoder.raw(text))
      modifies this`owned, this`missed, cache
      ensures MemoValid() && fresh(v) && v !in owned && fresh(owned - old(owned))
      ensures v[..] == encoder.raw(text) && missed == old(missed) + [key]
    {
      hide Remembered, LastN;
      v := Copied(encoder.raw(text));
      var kept := Copied(v[..]);
      WindowStep(missed, key, cacheSize);
      missed := missed + [key];
      owned := owned + {kept};
      Remember(key, kept);
    }

    /** Keep a vector under a new key and drop the oldest entry when the memo is over capacity. */
    method Remember(key: nat, kept: array<real>)
      requires cache.Valid() && key !in cache.values && 0 < cacheSize && |cache.keys| <= cacheSize
      modifies cache
      ensures cache.Valid()
      ensures cache.keys == (if |old(cache.keys)| < cacheSize then old(cache.keys) else old(cache.keys)[1..]) + [key]
      ensures forall k :: k in cache.values ==>
                            if k == key then cache.values[k] == kept
                            else k in old(cache.values) && cache.values[k] == old(cache.values[k])
    {
      InsertedKeys(cache.View(), key, kept, cacheSize);
      cache.Set(key, kept);
      if cache.Size() > cacheSize {
        var firstKey := cache.keys[0];
        cache.Delete(firstKey);
      }
    }
  }

  /** What the caller writes after call `n` into place `i` of the array call `j` returned, if anything. */
  type Scribble = (nat, nat, nat) -> Option<real>

  method OverwriteReturned(returned: seq<array<real>>, n: nat, scribble: Scribble)
    modifies set a | a in returned
  {
    for j := 0 to |returned| {
      forall i | 0 <= i < returned[j].Length {
        returned[j][i] := if scribble(n, j, i).Some? then scribble(n, j, i).value else returned[j][i];
      }
    }
  }

  /**
   * Any history of calls by a caller that keeps every array it is given and overwrites any of
   * them, at any place, after each call: every answer is still the raw embedding of a requested
   * text with the same hash, and without collisions it is the raw embedding of the text itself.
   */
  method HostileHistory(embedder: TrigramEmbedder, texts: seq<string>, scribble: Scribble)
    returns (answers: seq<seq<real>>)
    requires embedder.Valid() && embedder.calls == []
    modifies embedder, embedder.cache
    ensures embedder.Valid() && embedder.calls == texts
    ensures |answers| == |texts|
    ensures forall i :: 0 <= i < |texts| ==> Remembered(embedder.encoder, texts[..i + 1], embedder.encoder.hash(texts[i]), answers[i])
    ensures NoCollisions(embedder.encoder, texts) ==>
              forall i :: 0 <= i < |texts| ==> answers[i] == embedder.encoder.raw(texts[i])
  {
    hide Remembered, TrigramEmbedder.Valid, NoCollisions;
    answers := [];
    var returned: seq<array<real>> := [];
    for n := 0 to |texts|
      invariant embedder.Valid() && embedder.calls == texts[..n]
      invariant fresh(embedder.owned - old(embedder.owned))
      invariant forall a :: a in returned ==> fresh(a) && a !in embedder.owned
      invariant |answers| == |returned| == n
      invariant forall i :: 0 <= i < n ==> Remembered(embedder.encoder, texts[..i + 1], embedder.encoder.hash(texts[i]), answers[i])
    {
      var v := embedder.Embed(texts[n]);
      assert texts[..n + 1] == embedder.calls;
      answers := answers + [v[..]];
      returned := returned + [v];
      OverwriteReturned(returned, n, scribble);
    }
    assert texts[..|texts|] == texts;
    if NoCollisions(embedder.encoder, texts) {
      forall i | 0 <= i < |texts|
        ensures answers[i] == embedder.encoder.raw(texts[i])
      {
        OwnEmbedding(embedder.encoder, texts, i, answers[i]);
      }
    }
  }

  lemma OwnEmbedding(encoder: Encoder, texts: seq<string>, i: nat, v: seq<real>)
    requires NoCollisions(encoder, texts) && i < |texts|
    requires Remembered(encoder, texts[..i + 1], encoder.hash(texts[i]), v)
    ensures v == encoder.raw(texts[i])
  {
    var j :| 0 <= j < |texts[..i + 1]| && encoder.hash(texts[..i + 1][j]) == encoder.hash(texts[i])
             && v == encoder.raw(texts[..i + 1][j]);
    assert texts[..i + 1][j] == texts[j];
  }

  ghost predicate NoCollisions(encoder: Encoder, texts: seq<string>) {
    forall i, j :: 0 <= i < |texts| && 0 <= j < |texts| && encoder.hash(texts[i]) == encoder.hash(texts[j])
                   ==> texts[i] == texts[j]
  }
}
