/**
 The append-only audit log. The digest of an entry is a parameter: nothing is assumed
 of it, and the main theorem names the collision an undetected change would need.
 */
module Audit {

  /** What is hashed: every field of an entry but its own hash. */
  datatype Body = Body(seqNo: int, event: string, payload: map<string, string>, recordedAt: int, prevHash: string)

  datatype Entry = Entry(seqNo: int, event: string, payload: map<string, string>, recordedAt: int, prevHash: string,
                         entryHash: string)

  type Digest = Body -> string

  const GENESIS := "genesis"

  function BodyOf(e: Entry): Body {
    Body(e.seqNo, e.event, e.payload, e.recordedAt, e.prevHash)
  }

  /** The hash that the next entry has to name. */
  function Head(log: seq<Entry>): string {
    if log == [] then GENESIS else log[|log| - 1].entryHash
  }

  /** Entry `i` carries its own position, its predecessor's hash and its own digest. */
  predicate Linked(hash: Digest, log: seq<Entry>, i: nat)
    requires i < |log|
  {
    && log[i].seqNo == i
    && log[i].prevHash == Head(log[..i])
    && log[i].entryHash == hash(BodyOf(log[i]))
  }

  predicate Verified(hash: Digest, log: seq<Entry>) {
    forall i :: 0 <= i < |log| ==> Linked(hash, log, i)
  }

  function NextEntry(hash: Digest, log: seq<Entry>, event: string, payload: map<string, string>, at: int): Entry {
    var body := Body(|log|, event, payload, at, Head(log));
    Entry(|log|, event, payload, at, Head(log), hash(body))
  }

  class AppendOnlyAuditLog {
    const hash: Digest
    var entries: seq<Entry>

    constructor (hash: Digest)
      ensures this.hash == hash && entries == [] && Verified(hash, entries)
    {
      this.hash := hash;
      entries := [];
    }

    /** Earlier entries are kept; the log verifies exactly if it did before. */
    method Append(event: string, payload: map<string, string>, recordedAt: int) returns (entry: Entry)
      modifies this`entries
      ensures entry == NextEntry(hash, old(entries), event, payload, recordedAt)
      ensures entries == old(entries) + [entry]
      ensures Verified(hash, entries) <==> Verified(hash, old(entries))
    {
      var seqNo := |entries|;
      var prevHash := if entries != [] then entries[|entries| - 1].entryHash else GENESIS;
      var entryHash := hash(Body(seqNo, event, payload, recordedAt, prevHash));
      entry := Entry(seqNo, event, payload, recordedAt, prevHash, entryHash);
      AppendKeepsVerified(hash, entries, event, payload, recordedAt);
      entries := entries + [entry];
    }

    method VerifyChain() returns (ok: bool)
      ensures ok <==> Verified(hash, entries)
    {
      var prev := GENESIS;
      for i := 0 to |entries|
        invariant prev == Head(entries[..i])
        invariant forall j :: 0 <= j < i ==> Linked(hash, entries, j)
      {
        var e := entries[i];
        if e.seqNo != i || e.prevHash != prev {
          assert !Linked(hash, entries, i);
          return false;
        }
        var expected := hash(Body(e.seqNo, e.event, e.payload, e.recordedAt, e.prevHash));
        if e.entryHash != expected {
          assert !Linked(hash, entries, i);
          return false;
        }
        prev := e.entryHash;
      }
      ok := true;
    }
  }

  lemma AppendKeepsVerified(hash: Digest, log: seq<Entry>, event: string, payload: map<string, string>, at: int)
    ensures Verified(hash, log + [NextEntry(hash, log, event, payload, at)]) <==> Verified(hash, log)
  {
    var e := NextEntry(hash, log, event, payload, at);
    if Verified(hash, log) {
      AppendVerifies(hash, log, event, payload, at);
    }
    if Verified(hash, log + [e]) {
      PrefixVerifies(hash, log + [e], |log|);
      assert (log + [e])[..|log|] == log;
    }
  }

  lemma AppendVerifies(hash: Digest, log: seq<Entry>, event: string, payload: map<string, string>, at: int)
    requires Verified(hash, log)
    ensures Verified(hash, log + [NextEntry(hash, log, event, payload, at)])
  {
    var e := NextEntry(hash, log, event, payload, at);
    forall i | 0 <= i <= |log|
      ensures Linked(hash, log + [e], i)
    {
      assert (log + [e])[..i] == log[..i];
      assert log[..|log|] == log;
      if i < |log| {
        assert Linked(hash, log, i);
      }
    }
  }

  /** Dropping entries from the end is not seen by the chain, only by its head. */
  lemma PrefixVerifies(hash: Digest, log: seq<Entry>, n: nat)
    requires Verified(hash, log) && n <= |log|
    ensures Verified(hash, log[..n])
  {
    forall i | 0 <= i < n
      ensures Linked(hash, log[..n], i)
    {
      assert log[..n][..i] == log[..i];
      assert Linked(hash, log, i);
    }
  }

  /** Two entries with different contents and one digest. */
  ghost predicate Collision(hash: Digest, a: seq<Entry>, b: seq<Entry>) {
    exists x, y :: x in a && y in b && BodyOf(x) != BodyOf(y) && hash(BodyOf(x)) == hash(BodyOf(y))
  }

  /**
   Tamper evidence: two verified logs with the same head are the same log, entry for
   entry, unless the digest collides on two of their entries.
   */
  lemma {:induction false} OneHeadOneLog(hash: Digest, a: seq<Entry>, b: seq<Entry>)
    requires Verified(hash, a) && Verified(hash, b) && a != [] && b != []
    requires Head(a) == Head(b)
    ensures a == b || Collision(hash, a, b)
    decreases |a|
  {
    var n, m := |a| - 1, |b| - 1;
    assert Linked(hash, a, n) && Linked(hash, b, m);
    var x, y := a[n], b[m];
    if BodyOf(x) == BodyOf(y) {
      assert n == m && x == y;
      if n > 0 {
        PrefixVerifies(hash, a, n);
        PrefixVerifies(hash, b, n);
        OneHeadOneLog(hash, a[..n], b[..n]);
        if a[..n] == b[..n] {
          assert a == a[..n] + [x] && b == b[..n] + [y];
        } else {
          var u, v :| u in a[..n] && v in b[..n] && BodyOf(u) != BodyOf(v) && hash(BodyOf(u)) == hash(BodyOf(v));
          assert u in a && v in b;
        }
      } else {
        assert a == [x] && b == [y];
      }
    }
  }

  /** So any edit, reordering, insertion, deletion or truncation under a kept head is rejected. */
  lemma TamperingIsRejected(hash: Digest, log: seq<Entry>, forged: seq<Entry>)
    requires Verified(hash, log) && log != [] && forged != [] && forged != log
    requires !Collision(hash, log, forged)
    ensures Head(forged) == Head(log) ==> !Verified(hash, forged)
    ensures Verified(hash, forged) ==> Head(forged) != Head(log)
  {
    if Verified(hash, forged) && Head(forged) == Head(log) {
      OneHeadOneLog(hash, log, forged);
    }
  }
}
