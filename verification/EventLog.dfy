/** The append-only hash-chained event log, and what its head hash commits to.
    The hash is an arbitrary function of the record's material; nothing assumes it
    is injective. */
module EventLog {
  import opened Wrappers

  /** A hash as text: the sixty-four zeros, the empty text, or any other. */
  datatype Hash = Zeros | Blank | Digest(hex: string)
  const GENESIS := Zeros

  /** The body fields the approval and receipt checks read. Every other body field
      travels in `rest`. */
  datatype Body = Body(
    documentHash: Option<Hash>, expiry: Option<real>, channel: string,
    certificateId: Option<Hash>, eventHead: Option<Hash>, rest: string)

  datatype Kind = Approval | AssertionsOk | CertificateIssued | OtherKind(name: string)

  datatype Record = Record(seqNo: int, prevHash: Hash, eventHash: Hash, stamp: string, kind: Kind, body: Body)
  datatype Material = Material(prevHash: Hash, seqNo: int, stamp: string, kind: Kind, body: Body)

  type Hasher = Material -> Hash

  function MaterialOf(r: Record): Material
  {
    Material(r.prevHash, r.seqNo, r.stamp, r.kind, r.body)
  }

  function Head(log: seq<Record>): Hash
  {
    if log == [] then GENESIS else log[|log| - 1].eventHash
  }

  /** Sequence numbers count from one, every record names the hash before it, and
      every hash is the hash of its record. */
  ghost predicate Chained(hash: Hasher, log: seq<Record>)
  {
    forall i :: 0 <= i < |log| ==>
      && log[i].seqNo == i + 1
      && log[i].prevHash == Head(log[..i])
      && log[i].eventHash == hash(MaterialOf(log[i]))
  }

  lemma ChainedPrefix(hash: Hasher, log: seq<Record>, n: nat)
    requires Chained(hash, log) && n <= |log|
    ensures Chained(hash, log[..n])
  {
    forall i | 0 <= i < n ensures log[..n][i].prevHash == Head(log[..n][..i]) {
      assert log[..n][..i] == log[..i];
    }
  }

  /** The chain check, in the order the records are read. */
  method VerifyChain(hash: Hasher, log: seq<Record>) returns (ok: bool)
    ensures ok == Chained(hash, log)
  {
    var prev := GENESIS;
    var expected := 1;
    for i := 0 to |log|
      invariant expected == i + 1
      invariant prev == Head(log[..i])
      invariant forall k :: 0 <= k < i ==>
                  log[k].seqNo == k + 1 && log[k].prevHash == Head(log[..k]) && log[k].eventHash == hash(MaterialOf(log[k]))
    {
      var r := log[i];
      if r.seqNo != expected || r.prevHash != prev || hash(MaterialOf(r)) != r.eventHash {
        return false;
      }
      prev := r.eventHash;
      expected := expected + 1;
    }
    return true;
  }

  function NextRecord(hash: Hasher, log: seq<Record>, stamp: string, kind: Kind, body: Body): Record
  {
    var n := if log == [] then 1 else log[|log| - 1].seqNo + 1;
    Record(n, Head(log), hash(Material(Head(log), n, stamp, kind, body)), stamp, kind, body)
  }

  /** What an append writes after a verified log: the next number, the hash of the last
      record or the sixty-four zeros, and its own request, hashed. */
  lemma NextRecordIs(hash: Hasher, log: seq<Record>, stamp: string, kind: Kind, body: Body)
    requires Chained(hash, log)
    ensures var prev := if log == [] then Zeros else log[|log| - 1].eventHash;
            NextRecord(hash, log, stamp, kind, body) ==
            Record(|log| + 1, prev, hash(Material(prev, |log| + 1, stamp, kind, body)), stamp, kind, body)
  {
    if log != [] { assert log[|log| - 1].seqNo == |log|; }
  }

  /** Appending keeps a verified log verified; a log that was not stays that way. */
  lemma AppendKeepsChain(hash: Hasher, log: seq<Record>, stamp: string, kind: Kind, body: Body)
    ensures Chained(hash, log + [NextRecord(hash, log, stamp, kind, body)]) <==> Chained(hash, log)
  {
    var r := NextRecord(hash, log, stamp, kind, body);
    var longer := log + [r];
    assert longer[..|log|] == log;
    if Chained(hash, longer) {
      ChainedPrefix(hash, longer, |log|);
    }
    if Chained(hash, log) {
      forall i | 0 <= i < |longer|
        ensures longer[i].seqNo == i + 1 && longer[i].prevHash == Head(longer[..i]) && longer[i].eventHash == hash(MaterialOf(longer[i]))
      {
        assert longer[..i] == log[..i];
        if i == |log| { assert log[..i] == log; }
      }
    }
  }

  /** Every record that continues a verified log has the next number and names the
      head; it is what append would have written. */
  lemma ChainedExtension(hash: Hasher, log: seq<Record>, r: Record)
    requires Chained(hash, log)
    ensures Chained(hash, log + [r]) <==> r == NextRecord(hash, log, r.stamp, r.kind, r.body)
  {
    var longer := log + [r];
    assert longer[|log|] == r && longer[..|log|] == log;
    if Chained(hash, longer) {
      assert r.seqNo == |log| + 1;
      if log != [] { assert log[|log| - 1].seqNo == |log|; }
    } else if r == NextRecord(hash, log, r.stamp, r.kind, r.body) {
      AppendKeepsChain(hash, log, r.stamp, r.kind, r.body);
    }
  }

  datatype Collision = Collision(left: Material, right: Material)

  predicate Collides(hash: Hasher, c: Collision)
  {
    c.left != c.right && hash(c.left) == hash(c.right)
  }

  /** Walks two logs back from their heads and returns the first pair of different
      materials it meets. */
  function WalkBack(a: seq<Record>, b: seq<Record>): Option<Collision>
  {
    if a == [] || b == [] then None
    else if MaterialOf(a[|a| - 1]) != MaterialOf(b[|b| - 1]) then
      Some(Collision(MaterialOf(a[|a| - 1]), MaterialOf(b[|b| - 1])))
    else WalkBack(a[..|a| - 1], b[..|b| - 1])
  }

  lemma LastOf(hash: Hasher, log: seq<Record>)
    requires Chained(hash, log) && log != []
    ensures var before, last := log[..|log| - 1], log[|log| - 1];
            && log == before + [last] && Chained(hash, before)
            && last == Record(|log|, Head(before), hash(MaterialOf(last)), last.stamp, last.kind, last.body)
  {
    ChainedPrefix(hash, log, |log| - 1);
  }

  /** Verified logs whose last materials agree are of one length, and end in one record. */
  lemma SameLast(hash: Hasher, a: seq<Record>, b: seq<Record>)
    requires Chained(hash, a) && Chained(hash, b) && a != [] && b != []
    requires MaterialOf(a[|a| - 1]) == MaterialOf(b[|b| - 1])
    ensures |a| == |b| && a[|a| - 1] == b[|b| - 1] && Head(a[..|a| - 1]) == Head(b[..|b| - 1])
  {
    LastOf(hash, a);
    LastOf(hash, b);
  }

  /** Two verified logs with the same head are the same log, or the walk back from
      the head returns two different materials with one hash. */
  lemma {:induction false} SameHeadSameLog(hash: Hasher, a: seq<Record>, b: seq<Record>)
    requires Chained(hash, a) && Chained(hash, b)
    requires a != [] && b != [] && Head(a) == Head(b)
    ensures match WalkBack(a, b)
            case None => a == b
            case Some(c) => Collides(hash, c) && a != b
    decreases |a|
  {
    var x, y := a[..|a| - 1], b[..|b| - 1];
    LastOf(hash, a);
    LastOf(hash, b);
    if MaterialOf(a[|a| - 1]) == MaterialOf(b[|b| - 1]) {
      SameLast(hash, a, b);
      assert WalkBack(a, b) == WalkBack(x, y);
      if x == [] {
        assert y == [];
      } else {
        SameHeadSameLog(hash, x, y);
      }
    }
  }

  /** The log file as one object. */
  class Log {
    const hash: Hasher
    var records: seq<Record>

    constructor (hash: Hasher)
      ensures this.hash == hash && records == [] && Chained(hash, records)
    {
      this.hash := hash;
      records := [];
    }

    /** Reads the tail, computes the next record and extends the file. */
    method Append(kind: Kind, body: Body, stamp: string) returns (r: Record)
      modifies this
      ensures r == NextRecord(hash, old(records), stamp, kind, body)
      ensures records == old(records) + [r]
      ensures Chained(hash, records) == Chained(hash, old(records))
    {
      var n := if records == [] then 1 else records[|records| - 1].seqNo + 1;
      var prev := if records == [] then GENESIS else records[|records| - 1].eventHash;
      r := Record(n, prev, hash(Material(prev, n, stamp, kind, body)), stamp, kind, body);
      AppendKeepsChain(hash, records, stamp, kind, body);
      records := records + [r];
    }

    method Verify() returns (ok: bool)
      ensures ok == Chained(hash, records)
    {
      ok := VerifyChain(hash, records);
    }
  }
}
