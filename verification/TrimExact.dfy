/** Where the interpolation search hits its target at once: plain text and a counter of one token for every r bytes. */
module TrimExact {
  import opened Utf8
  import opened TokenTrim

  predicate Ascii(text: Text) { forall i | 0 <= i < |text| :: text[i] <= 0x7F }

  lemma AsciiCut(text: Text, keep: nat, p: Text)
    requires Ascii(text) && keep <= |text| && LongestCut(text, keep, p)
    ensures |p| == keep
  {
    assert Boundary(text, keep);
  }

  lemma Cancel(a: int, b: int, c: int)
    requires c > 0 && a * c < b * c
    ensures a < b
  {
    assert a >= b ==> (a - b) * c >= 0;
    assert (a - b) * c == a * c - b * c;
  }

  /** The place proposed lies within the target's r bytes. */
  lemma ProposedKeep(n: nat, r: nat, c: nat, target: nat, keep: nat)
    requires r > 0 && c * r <= n < (c + 1) * r && 0 < target < c
    requires Proportional(Bracket(0, 0, n, c), target, keep)
    ensures target * r <= keep < (target + 1) * r && keep <= n
  {
    assert keep * c <= target * n < (keep + 1) * c;
    Below(n, r, c, target, keep);
    Above(n, r, c, target, keep);
    assert (target + 1) * r <= c * r by { Ordered(target + 1, c, r); }
  }

  lemma Ordered(a: int, b: int, r: nat)
    requires a <= b
    ensures a * r <= b * r && r * a <= r * b
  {
    assert (b - a) * r >= 0;
  }

  lemma Below(n: nat, r: nat, c: nat, target: nat, keep: nat)
    requires c * r <= n && 0 < c && target * n < (keep + 1) * c
    ensures target * r <= keep
  {
    Ordered(c * r, n, target);
    assert target * (c * r) == (target * r) * c;
    Cancel(target * r, keep + 1, c);
  }

  lemma Above(n: nat, r: nat, c: nat, target: nat, keep: nat)
    requires n < (c + 1) * r && 0 < target < c && keep * c <= target * n
    ensures keep < (target + 1) * r
  {
    Ordered(n, (c + 1) * r, target);
    Ordered(target, c, r);
    assert target * ((c + 1) * r) == (target * r) * c + target * r;
    assert (target * r) * c + c * r == ((target + 1) * r) * c;
    assert target * n < ((target + 1) * r) * c || keep * c <= target * n == ((target + 1) * r) * c;
    if target * n == ((target + 1) * r) * c { StrictlyBelow(n, r, c, target); }
    Cancel(keep, (target + 1) * r, c);
  }

  lemma StrictlyBelow(n: nat, r: nat, c: nat, target: nat)
    requires n < (c + 1) * r && 0 < target < c
    ensures target * n < ((target + 1) * r) * c
  {
    Ordered(n + 1, (c + 1) * r, target);
    Ordered(target, c, r);
    assert target * ((c + 1) * r) == (target * r) * c + target * r;
    assert (target * r) * c + c * r == ((target + 1) * r) * c;
    assert target * (n + 1) == target * n + target;
  }

  lemma Shares(keep: nat, r: nat, target: nat)
    requires r > 0 && target * r <= keep < (target + 1) * r
    ensures keep / r == target
  {
    var q := keep / r;
    assert q * r <= keep < (q + 1) * r by { assert (q + 1) * r == q * r + r; }
    Cancel(target, q + 1, r);
    Cancel(q, target + 1, r);
  }

  lemma ProposedHits(source: Text, r: nat, target: int, p: Text)
    requires r > 0 && Ascii(source) && 0 < target < |source| / r
    requires Proposed(source, Bracket(0, 0, |source|, |source| / r), target, p)
    ensures p <= source && |p| / r == target && p != []
  {
    var n, c := |source|, |source| / r;
    assert c * r <= n < (c + 1) * r by { assert (c + 1) * r == c * r + r; }
    var keep: nat :| Proportional(Bracket(0, 0, n, c), target, keep) && LongestCut(source, keep, p);
    ProposedKeep(n, r, c, target, keep);
    AsciiCut(source, keep, p);
    Shares(keep, r, target);
    assert 0 / r == 0;
  }

  /** For such a counter the first prefix proposed counts exactly the target, so it is the only one measured, and it is the
      result. */
  lemma HitsAtOnce(source: Text, r: nat, target: int, counter: Counter, probes: seq<Text>, result: Text)
    requires r > 0 && Ascii(source) && 0 < target < |source| / r
    requires forall p | p <= source :: counter(p) == Counted(|p| / r)
    requires Outcome(source, target, |source| / r, counter, probes, result)
    ensures probes == [result] && counter(result) == Counted(target)
  {
    var n, c := |source|, |source| / r;
    var b := Bracket(0, 0, n, c);
    forall p | Proposed(source, b, target, p) ensures p <= source && |p| / r == target && p != [] {
      ProposedHits(source, r, target, p);
    }
    if probes != [] {
      assert ProbeAt(source, target, c, counter, probes, 0);
      assert probes[..0] == [];
      assert !Misses(counter, probes[0], target);
    }
  }
}
