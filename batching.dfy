/** Cutting a sequence into consecutive batches of a fixed size, the shape in
    which the import command hands rating rows to the database. */
module Batching {

  /** The batches laid end to end. */
  function Flatten<T>(bs: seq<seq<T>>): seq<T>
  {
    if bs == [] then [] else bs[0] + Flatten(bs[1..])
  }

  lemma {:induction false} FlattenAppend<T>(bs: seq<seq<T>>, b: seq<T>)
    ensures Flatten(bs + [b]) == Flatten(bs) + b
  {
    if bs == [] {
      assert [] + [b] == [b];
    } else {
      assert (bs + [b])[1..] == bs[1..] + [b];
      FlattenAppend(bs[1..], b);
    }
  }

  /** `bs` cuts `s` into batches of `n`: read in order they give `s`, each
      holds at least one and at most `n` elements, and all but the last hold
      exactly `n`. */
  ghost predicate IsChunking<T>(bs: seq<seq<T>>, s: seq<T>, n: nat)
  {
    && Flatten(bs) == s
    && (forall i :: 0 <= i < |bs| ==> 0 < |bs[i]| <= n)
    && (forall i :: 0 <= i < |bs| - 1 ==> |bs[i]| == n)
  }

  /** The reference chunking: take `n` elements, then chunk the rest. */
  function Chunks<T>(s: seq<T>, n: nat): (r: seq<seq<T>>)
    requires n > 0
    ensures IsChunking(r, s, n)
    decreases |s|
  {
    if s == [] then []
    else if |s| <= n then [s]
    else
      var rest := Chunks(s[n..], n);
      assert s[..n] + s[n..] == s;
      [s[..n]] + rest
  }

  /** Full batches followed by a shorter remainder, written only when it is
      not empty, cut the sequence into batches of `n`. */
  lemma LastBatch<T>(bs: seq<seq<T>>, rest: seq<T>, s: seq<T>, n: nat)
    requires n > 0
    requires forall i :: 0 <= i < |bs| ==> |bs[i]| == n
    requires Flatten(bs) + rest == s && |rest| < n
    ensures IsChunking(if rest == [] then bs else bs + [rest], s, n)
  {
    if rest == [] {
      assert Flatten(bs) == s;
    } else {
      FlattenAppend(bs, rest);
      var bs' := bs + [rest];
      assert forall i :: 0 <= i < |bs| ==> bs'[i] == bs[i];
    }
  }

  /** There is only one way to cut a sequence into batches of `n`. */
  lemma {:induction false} ChunkingUnique<T>(bs: seq<seq<T>>, s: seq<T>, n: nat)
    requires n > 0
    requires IsChunking(bs, s, n)
    ensures bs == Chunks(s, n)
    decreases |bs|
  {
    if |bs| == 1 {
      assert Flatten(bs) == bs[0] + Flatten(bs[1..]);
      assert bs[0] == s;
    } else if |bs| > 1 {
      var rest := bs[1..];
      assert |bs[0]| == n;
      assert forall i :: 0 <= i < |rest| ==> rest[i] == bs[i + 1];
      assert s == bs[0] + Flatten(rest);
      assert s[..n] == bs[0] && s[n..] == Flatten(rest);
      ChunkingUnique(rest, s[n..], n);
      assert bs == [bs[0]] + rest;
    }
  }
}
