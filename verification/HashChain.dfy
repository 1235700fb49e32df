/** A chain of hashed texts, each link hashed together with the hash before it. */
module HashChain {
  import opened Wrappers
  import opened Decimals
  import opened JcsNumbers

  type Hash = string -> string

  /** One link: the previous hash, its own hash, and the text it commits to. */
  datatype Link = Link(prevHash: string, hash: string, text: string)

  /** The genesis hash, 64 zeros. */
  function Genesis(): string { Zeros(64) }

  /** What the hashing relies on: hexadecimal output, and no two texts with one hash. */
  ghost predicate Ideal(h: Hash) {
    && (forall x: string :: '.' !in h(x))
    && (forall x: string, y: string :: h(x) == h(y) ==> x == y)
  }

  ghost predicate NeverGenesis(h: Hash) { forall x: string :: h(x) != Genesis() }

  function LinkHash(h: Hash, prevHash: string, text: string): string { h(prevHash + "." + text) }

  function LastHash(links: seq<Link>): string {
    if links == [] then Genesis() else links[|links| - 1].hash
  }

  predicate LinkOk(h: Hash, links: seq<Link>, i: nat)
    requires i < |links|
  {
    && links[i].prevHash == LastHash(links[..i])
    && links[i].hash == LinkHash(h, LastHash(links[..i]), links[i].text)
  }

  predicate Chained(h: Hash, links: seq<Link>) { forall i :: 0 <= i < |links| ==> LinkOk(h, links, i) }

  lemma ChainedPrefix(h: Hash, links: seq<Link>, n: nat)
    requires Chained(h, links) && n <= |links|
    ensures Chained(h, links[..n])
  {
    forall i | 0 <= i < n ensures LinkOk(h, links[..n], i) {
      assert LinkOk(h, links, i);
      assert links[..n][..i] == links[..i];
    }
  }

  lemma ChainedSnoc(h: Hash, links: seq<Link>, text: string)
    requires Chained(h, links)
    ensures Chained(h, links + [Link(LastHash(links), LinkHash(h, LastHash(links), text), text)])
  {
    var next := links + [Link(LastHash(links), LinkHash(h, LastHash(links), text), text)];
    forall i | 0 <= i < |next| ensures LinkOk(h, next, i) {
      if i < |links| { assert LinkOk(h, links, i) && next[..i] == links[..i]; } else { assert next[..i] == links; }
    }
  }

  lemma SplitAtDot(a: string, x: string, b: string, y: string)
    requires '.' !in a && '.' !in b && a + "." + x == b + "." + y
    ensures a == b && x == y
  {
    CutAt(a, '.', x);
    CutAt(b, '.', y);
    assert a + ['.'] + x == b + ['.'] + y;
  }

  lemma HashesHaveNoDot(h: Hash, links: seq<Link>)
    requires Ideal(h) && Chained(h, links)
    ensures '.' !in LastHash(links)
  {
    if links != [] { assert LinkOk(h, links, |links| - 1); }
  }

  /** Equal last hashes force equal last links and equal hashes before them. */
  lemma EqualHashesEqualLinks(h: Hash, a: seq<Link>, b: seq<Link>)
    requires Ideal(h) && Chained(h, a) && Chained(h, b)
    requires a != [] && b != [] && LastHash(a) == LastHash(b)
    ensures a[|a| - 1] == b[|b| - 1]
    ensures LastHash(a[..|a| - 1]) == LastHash(b[..|b| - 1])
  {
    assert LinkOk(h, a, |a| - 1) && LinkOk(h, b, |b| - 1);
    ChainedPrefix(h, a, |a| - 1);
    ChainedPrefix(h, b, |b| - 1);
    HashesHaveNoDot(h, a[..|a| - 1]);
    HashesHaveNoDot(h, b[..|b| - 1]);
    SplitAtDot(a[|a| - 1].prevHash, a[|a| - 1].text, b[|b| - 1].prevHash, b[|b| - 1].text);
  }

  /** The last hash pins every link of a chain of known length. */
  lemma {:induction false} LastHashPinsLinks(h: Hash, a: seq<Link>, b: seq<Link>)
    requires Ideal(h) && Chained(h, a) && Chained(h, b)
    requires |a| == |b| && LastHash(a) == LastHash(b)
    ensures a == b
    decreases |a|
  {
    if a != [] {
      EqualHashesEqualLinks(h, a, b);
      ChainedPrefix(h, a, |a| - 1);
      ChainedPrefix(h, b, |b| - 1);
      LastHashPinsLinks(h, a[..|a| - 1], b[..|b| - 1]);
      assert a == a[..|a| - 1] + [a[|a| - 1]] && b == b[..|b| - 1] + [b[|b| - 1]];
    }
  }

  /** When no text hashes to the genesis value, the last hash pins the length too. */
  lemma {:induction false} LastHashPinsLength(h: Hash, a: seq<Link>, b: seq<Link>)
    requires Ideal(h) && NeverGenesis(h) && Chained(h, a) && Chained(h, b)
    requires LastHash(a) == LastHash(b)
    ensures |a| == |b|
    decreases |a|
  {
    if a != [] { assert LinkOk(h, a, |a| - 1); }
    if b != [] { assert LinkOk(h, b, |b| - 1); }
    if a != [] && b != [] {
      EqualHashesEqualLinks(h, a, b);
      ChainedPrefix(h, a, |a| - 1);
      ChainedPrefix(h, b, |b| - 1);
      LastHashPinsLength(h, a[..|a| - 1], b[..|b| - 1]);
    }
  }

  /** Then no two links of a chain have the same hash, nor does a next one repeat an earlier one. */
  lemma HashesDistinct(h: Hash, links: seq<Link>, text: string, i: nat)
    requires Ideal(h) && NeverGenesis(h) && Chained(h, links) && i < |links|
    ensures links[i].hash != LinkHash(h, LastHash(links), text)
  {
    if links[i].hash == LinkHash(h, LastHash(links), text) {
      ChainedPrefix(h, links, i + 1);
      ChainedSnoc(h, links, text);
      LastHashPinsLength(h, links[..i + 1], links + [Link(LastHash(links), LinkHash(h, LastHash(links), text), text)]);
      assert false;
    }
  }

  /** The first broken link and whether its back reference or its content is wrong. */
  datatype Break = Break(index: nat, detail: string)

  predicate IsFirstBreak(h: Hash, links: seq<Link>, b: Break) {
    && b.index < |links| && !LinkOk(h, links, b.index)
    && (forall j :: 0 <= j < b.index ==> LinkOk(h, links, j))
    && b.detail == if links[b.index].prevHash != LastHash(links[..b.index]) then "prev_hash link broken"
                   else "hash mismatch: payload tampered"
  }

  /** Recomputes the whole chain. */
  method VerifyLinks(h: Hash, links: seq<Link>) returns (r: Option<Break>)
    ensures r == None <==> Chained(h, links)
    ensures r.Some? ==> IsFirstBreak(h, links, r.value)
  {
    var prev := Genesis();
    for i := 0 to |links|
      invariant prev == LastHash(links[..i])
      invariant forall j :: 0 <= j < i ==> LinkOk(h, links, j)
    {
      var expected := LinkHash(h, prev, links[i].text);
      if links[i].prevHash != prev {
        assert !LinkOk(h, links, i);
        return Some(Break(i, "prev_hash link broken"));
      }
      if links[i].hash != expected {
        assert !LinkOk(h, links, i);
        return Some(Break(i, "hash mismatch: payload tampered"));
      }
      prev := links[i].hash;
    }
    return None;
  }
}
