/** Receipt acceptance over the event log: which logs a certificate is accepted
    against, and what the accepted certificate then commits to. */
module Certificate {
  import opened Wrappers
  import opened EventLog
  import opened Approval

  /** The certificate fields the event checks read. */
  datatype Cert = Cert(certificateId: Hash, eventHead: Hash, channel: Option<string>, approvalExpiry: Option<real>)

  predicate IsAssertions(r: Record, cert: Cert)
  {
    r.kind.AssertionsOk? && r.eventHash == cert.eventHead
  }

  predicate IsIssuedId(r: Record, cert: Cert)
  {
    r.kind.CertificateIssued? && r.body.certificateId == Some(cert.certificateId)
  }

  ghost predicate FirstAssertions(log: seq<Record>, cert: Cert, i: int)
  {
    0 <= i < |log| && IsAssertions(log[i], cert) && forall k :: 0 <= k < i ==> !IsAssertions(log[k], cert)
  }

  ghost predicate LastIssued(log: seq<Record>, cert: Cert, j: int)
  {
    0 <= j < |log| && IsIssuedId(log[j], cert) && forall k :: j < k < |log| ==> !IsIssuedId(log[k], cert)
  }

  /** The ordering check as it is made: by the first matching assertions event, the
      event right after it, and the last event that issues this certificate. */
  ghost predicate OrderingAccepted(log: seq<Record>, cert: Cert)
  {
    exists i, j :: FirstAssertions(log, cert, i) && LastIssued(log, cert, j)
      && i + 1 < |log|
      && IsIssuedId(log[i + 1], cert) && log[i + 1].body.eventHead == Some(cert.eventHead)
      && log[|log| - 1].eventHash == log[j].eventHash
      && log[j].eventHash == log[i + 1].eventHash
  }

  method VerifyIssuanceOrdering(log: seq<Record>, cert: Cert) returns (ok: bool)
    ensures ok == OrderingAccepted(log, cert)
  {
    var found := -1;
    var i := 0;
    while i < |log| && found < 0
      invariant 0 <= i <= |log|
      invariant found < 0 ==> forall k :: 0 <= k < i ==> !IsAssertions(log[k], cert)
      invariant 0 <= found ==> FirstAssertions(log, cert, found)
      decreases |log| - i, found < 0
    {
      if IsAssertions(log[i], cert) {
        found := i;
      } else {
        i := i + 1;
      }
    }
    if found < 0 || found + 1 >= |log| {
      return false;
    }
    var issued := log[found + 1];
    if !IsIssuedId(issued, cert) || issued.body.eventHead != Some(cert.eventHead) {
      return false;
    }
    var final := -1;
    for k := 0 to |log|
      invariant -1 <= final < k
      invariant final < 0 ==> forall m :: 0 <= m < k ==> !IsIssuedId(log[m], cert)
      invariant 0 <= final ==> IsIssuedId(log[final], cert) && forall m :: final < m < k ==> !IsIssuedId(log[m], cert)
    {
      if IsIssuedId(log[k], cert) {
        final := k;
      }
    }
    assert LastIssued(log, cert, final);
    return log[|log| - 1].eventHash == log[final].eventHash && log[final].eventHash == issued.eventHash;
  }

  /** The log ends with this certificate's assertions event and its issuance. */
  predicate EndsWithIssuance(log: seq<Record>, cert: Cert)
  {
    && 2 <= |log|
    && log[|log| - 2].kind == AssertionsOk && log[|log| - 2].eventHash == cert.eventHead
    && log[|log| - 1].kind == CertificateIssued
    && log[|log| - 1].body.certificateId == Some(cert.certificateId) && log[|log| - 1].body.eventHead == Some(cert.eventHead)
  }

  /** Two records of the log have different materials and one hash. */
  ghost predicate CollisionWithin(hash: Hasher, log: seq<Record>)
  {
    exists i, j :: 0 <= i < j < |log| && Collides(hash, Collision(MaterialOf(log[i]), MaterialOf(log[j])))
  }

  lemma SameHashSamePlace(hash: Hasher, log: seq<Record>, i: int, j: int)
    requires Chained(hash, log)
    requires 0 <= i < |log| && 0 <= j < |log| && log[i].eventHash == log[j].eventHash
    ensures i == j || CollisionWithin(hash, log)
  {
    assert log[i].seqNo == i + 1 && log[j].seqNo == j + 1;
    if i < j {
      assert Collides(hash, Collision(MaterialOf(log[i]), MaterialOf(log[j])));
    } else if j < i {
      assert Collides(hash, Collision(MaterialOf(log[j]), MaterialOf(log[i])));
    }
  }

  /** On a verified log, the ordering check accepts exactly the logs that end with
      the certificate's assertions event and its issuance, unless two of the log's
      own records collide. */
  lemma AcceptedExactlyAtTheEnd(hash: Hasher, log: seq<Record>, cert: Cert)
    requires Chained(hash, log) && !CollisionWithin(hash, log)
    ensures OrderingAccepted(log, cert) <==> EndsWithIssuance(log, cert)
  {
    if OrderingAccepted(log, cert) {
      var i, j :| FirstAssertions(log, cert, i) && LastIssued(log, cert, j) && i + 1 < |log|
        && IsIssuedId(log[i + 1], cert) && log[i + 1].body.eventHead == Some(cert.eventHead)
        && log[|log| - 1].eventHash == log[j].eventHash && log[j].eventHash == log[i + 1].eventHash;
      SameHashSamePlace(hash, log, |log| - 1, j);
      SameHashSamePlace(hash, log, j, i + 1);
    }
    if EndsWithIssuance(log, cert) {
      var i, j := |log| - 2, |log| - 1;
      forall k | 0 <= k < i ensures !IsAssertions(log[k], cert) {
        if IsAssertions(log[k], cert) { SameHashSamePlace(hash, log, k, i); }
      }
      assert FirstAssertions(log, cert, i) && LastIssued(log, cert, j);
    }
  }

  lemma CollisionStays(hash: Hasher, log: seq<Record>, r: Record)
    requires CollisionWithin(hash, log)
    ensures CollisionWithin(hash, log + [r])
  {
    var i, j :| 0 <= i < j < |log| && Collides(hash, Collision(MaterialOf(log[i]), MaterialOf(log[j])));
    assert (log + [r])[i] == log[i] && (log + [r])[j] == log[j];
  }

  /** Any well-chained event after issuance ends acceptance, a second issuance of
      the same certificate included. */
  lemma AnyAppendEndsAcceptance(hash: Hasher, log: seq<Record>, cert: Cert, r: Record)
    requires Chained(hash, log) && OrderingAccepted(log, cert)
    requires Chained(hash, log + [r]) && !CollisionWithin(hash, log + [r])
    ensures !OrderingAccepted(log + [r], cert)
  {
    var longer := log + [r];
    assert longer[..|log|] == log;
    if CollisionWithin(hash, log) {
      CollisionStays(hash, log, r);
    }
    AcceptedExactlyAtTheEnd(hash, log, cert);
    AcceptedExactlyAtTheEnd(hash, longer, cert);
    if EndsWithIssuance(longer, cert) {
      SameHashSamePlace(hash, longer, |log| - 2, |log| - 1);
    }
  }

  /** The approval part of receipt verification. With an approval event in the log
      the approval file must match it and the certificate must carry its channel
      and expiry; without one only a holder receipt with no approval is accepted. */
  ghost predicate ApprovalBound(h: Hashes, log: seq<Record>, cert: Cert, file: Option<Document>, holderReceipt: bool)
  {
    if Chained(h.record, log) && LatestApproval(log).Some? then
      var e := LatestApproval(log).value.body;
      && file.Some? && MatchesLatest(h, file.value, log)
      && cert.channel == Some(e.channel)
      && cert.approvalExpiry == e.expiry
    else holderReceipt && file.None? && cert.channel.None?
  }

  /** The event checks of receipt verification together. */
  ghost predicate ReceiptAccepted(h: Hashes, log: seq<Record>, cert: Cert, file: Option<Document>, holderReceipt: bool)
  {
    Chained(h.record, log) && OrderingAccepted(log, cert) && ApprovalBound(h, log, cert, file, holderReceipt)
  }

  method VerifyReceipt(h: Hashes, log: seq<Record>, cert: Cert, file: Option<Document>, holderReceipt: bool) returns (ok: bool)
    ensures ok == ReceiptAccepted(h, log, cert, file, holderReceipt)
  {
    var chained := VerifyChain(h.record, log);
    if !chained { return false; }
    var ordered := VerifyIssuanceOrdering(log, cert);
    if !ordered { return false; }
    var latest := LatestApprovalEvent(h.record, log);
    if latest.Some? {
      var e := latest.value.body;
      if file.None? || !AllowedChannel(file.value.channel) || e.documentHash.None? || e.documentHash.value == Blank { return false; }
      if e.documentHash.value != h.document(file.value) || e.channel != file.value.channel { return false; }
      return cert.channel == Some(e.channel) && cert.approvalExpiry == e.expiry;
    }
    return holderReceipt && file.None? && cert.channel.None?;
  }

  lemma LatestBeforeIssuance(log: seq<Record>, cert: Cert)
    requires EndsWithIssuance(log, cert)
    ensures LatestApproval(log) == LatestApproval(log[..|log| - 1])
  {
  }

  /** A certificate commits to the whole history behind it. If one certificate is
      accepted with two logs, then those logs agree record for record up to its
      assertions event, hold the same latest approval event, and the two approval
      files hash alike; or some pair of materials collides, either within one log
      or on the walk back from the two assertions events. */
  lemma CertificateCommitsToHistory(h: Hashes, a: seq<Record>, b: seq<Record>, cert: Cert,
                                    fileA: Option<Document>, fileB: Option<Document>, holderA: bool, holderB: bool)
    requires ReceiptAccepted(h, a, cert, fileA, holderA) && ReceiptAccepted(h, b, cert, fileB, holderB)
    requires !CollisionWithin(h.record, a) && !CollisionWithin(h.record, b)
    ensures 2 <= |a| && 2 <= |b|
    ensures match WalkBack(a[..|a| - 1], b[..|b| - 1])
            case Some(c) => Collides(h.record, c)
            case None =>
              && a[..|a| - 1] == b[..|b| - 1]
              && LatestApproval(a) == LatestApproval(b)
              && fileA.Some? == fileB.Some?
              && (fileA.Some? ==> h.document(fileA.value) == h.document(fileB.value))
  {
    AcceptedExactlyAtTheEnd(h.record, a, cert);
    AcceptedExactlyAtTheEnd(h.record, b, cert);
    var shortA, shortB := a[..|a| - 1], b[..|b| - 1];
    ChainedPrefix(h.record, a, |a| - 1);
    ChainedPrefix(h.record, b, |b| - 1);
    assert Head(shortA) == cert.eventHead && Head(shortB) == cert.eventHead;
    SameHeadSameLog(h.record, shortA, shortB);
    LatestBeforeIssuance(a, cert);
    LatestBeforeIssuance(b, cert);
  }

  /** Which receipts are accepted, over the log of any run directory without a
      collision: the log ends with the certificate's assertions event and its issuance,
      and the certificate carries the channel and expiry of the document approved last,
      whose hash the approval file has; or there never was one, and a holder receipt
      says so. */
  lemma ReceiptAcceptedExactly(h: Hashes, steps: seq<Step>, cert: Cert, file: Option<Document>, holderReceipt: bool)
    requires !CollisionWithin(h.record, Run(h, FRESH, steps).log)
    ensures var s := Run(h, FRESH, steps);
            ReceiptAccepted(h, s.log, cert, file, holderReceipt) <==>
              && 2 <= |s.log|
              && var last, ok := s.log[|s.log| - 1], s.log[|s.log| - 2];
              && ok.kind == AssertionsOk && ok.eventHash == cert.eventHead
              && last.kind == CertificateIssued && last.body.certificateId == Some(cert.certificateId) && last.body.eventHead == Some(cert.eventHead)
              && if s.approved == [] then holderReceipt && file.None? && cert.channel.None?
                 else
                   var d := s.approved[|s.approved| - 1];
                   && file.Some? && h.document(file.value) == h.document(d) && h.document(d) != Blank
                   && file.value.channel == d.channel && cert.channel == Some(d.channel) && cert.approvalExpiry == d.expiry
  {
    RunKeepsInv(h, FRESH, steps);
    var s := Run(h, FRESH, steps);
    AcceptedExactlyAtTheEnd(h.record, s.log, cert);
    if s.approved != [] {
      assert s.approved[|s.approved| - 1] in s.approved;
    }
  }

  /** The terms an accepted receipt binds are those of the approval in force when
      the run directory was last approved. */
  lemma ReceiptBindsLatestApproval(h: Hashes, steps: seq<Step>, cert: Cert, file: Option<Document>, holderReceipt: bool)
    requires ReceiptAccepted(h, Run(h, FRESH, steps).log, cert, file, holderReceipt)
    ensures var s := Run(h, FRESH, steps);
            if s.approved == [] then file.None? && holderReceipt
            else
              var last := s.approved[|s.approved| - 1];
              && file.Some? && h.document(file.value) == h.document(last)
              && cert.channel == Some(last.channel) && cert.approvalExpiry == last.expiry
  {
    RunKeepsInv(h, FRESH, steps);
  }
}
