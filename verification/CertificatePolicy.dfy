/** Remembered decisions about certificates (web/net/cert_policy.cc,
    web/net/certificate_policy_cache.cc). A certificate is known by its chain's fingerprint; a
    CertStatus is a mask of 32 bits. */
module CertificatePolicy {
  import opened Wrappers

  type Fingerprint = nat
  type CertStatus = bv32

  datatype Judgment = UNKNOWN | ALLOWED | DENIED

  /** The bit test in Check. */
  predicate Matches(allowed: CertStatus, error: CertStatus) {
    (allowed & error) != 0 && (!(allowed & error) ^ !error) == 0
  }

  /** One host's policy. */
  datatype CertPolicy = CertPolicy(allowed: map<Fingerprint, CertStatus>) {
    function Check(cert: Fingerprint, error: CertStatus): Judgment {
      if cert in allowed && Matches(allowed[cert], error) then ALLOWED else UNKNOWN
    }

    function Allow(cert: Fingerprint, error: CertStatus): CertPolicy {
      CertPolicy(allowed[cert := error])
    }
  }

  class CertificatePolicyCache {
    var certPolicyForHost: map<string, CertPolicy>

    constructor ()
      ensures certPolicyForHost == map[]
    {
      certPolicyForHost := map[];
    }

    /** operator[] of std::map. */
    method Entry(host: string) returns (policy: CertPolicy)
      modifies this
      ensures certPolicyForHost == WithEntry(old(certPolicyForHost), host) && policy == certPolicyForHost[host]
    {
      if host !in certPolicyForHost {
        certPolicyForHost := certPolicyForHost[host := CertPolicy(map[])];
      }
      policy := certPolicyForHost[host];
    }

    method AllowCertForHost(cert: Fingerprint, host: string, error: CertStatus)
      modifies this
      ensures certPolicyForHost == Apply(old(certPolicyForHost), Op.Allow(cert, host, error))
    {
      var policy := Entry(host);
      certPolicyForHost := certPolicyForHost[host := policy.Allow(cert, error)];
    }

    method QueryPolicy(cert: Fingerprint, host: string, error: CertStatus) returns (judgment: Judgment)
      modifies this
      ensures certPolicyForHost == Apply(old(certPolicyForHost), Op.Query(cert, host, error))
      ensures judgment == Answer(old(certPolicyForHost), cert, host, error)
    {
      var policy := Entry(host);
      judgment := policy.Check(cert, error);
    }

    method ClearCertificatePolicies()
      modifies this
      ensures certPolicyForHost == Apply(old(certPolicyForHost), Op.Clear)
    {
      certPolicyForHost := map[];
    }
  }

  type Cache = map<string, CertPolicy>

  function WithEntry(c: Cache, host: string): Cache {
    if host in c then c else c[host := CertPolicy(map[])]
  }

  datatype Op =
    | Allow(cert: Fingerprint, host: string, error: CertStatus)
    | Query(cert: Fingerprint, host: string, error: CertStatus)
    | Clear

  function Apply(c: Cache, op: Op): Cache {
    match op
    case Allow(cert, host, error) => c[host := WithEntry(c, host)[host].Allow(cert, error)]
    case Query(_, host, _) => WithEntry(c, host)
    case Clear => map[]
  }

  function Answer(c: Cache, cert: Fingerprint, host: string, error: CertStatus): Judgment {
    WithEntry(c, host)[host].Check(cert, error)
  }

  function CacheAfter(history: seq<Op>): Cache {
    if history == [] then map[] else Apply(CacheAfter(history[..|history| - 1]), history[|history| - 1])
  }

  /** The mask of the latest Allow for the certificate and host since the last Clear. */
  function LatestMask(history: seq<Op>, cert: Fingerprint, host: string): Option<CertStatus> {
    if history == [] then None
    else
      match history[|history| - 1]
      case Clear => None
      case Allow(c, h, error) =>
        if c == cert && h == host then Some(error) else LatestMask(history[..|history| - 1], cert, host)
      case Query(_, _, _) => LatestMask(history[..|history| - 1], cert, host)
  }

  predicate IsBit(b: CertStatus) {
    b != 0 && b & (b - 1) == 0
  }

  /** Every error bit was allowed. */
  ghost predicate Covers(mask: CertStatus, error: CertStatus) {
    forall b: CertStatus | IsBit(b) :: error & b != 0 ==> mask & b != 0
  }

  lemma LowestBit(d: CertStatus) returns (b: CertStatus)
    requires d != 0
    ensures IsBit(b) && d & b == b
  {
    b := d & (!d + 1);
    LowestBitIsBit(d);
  }

  lemma LowestBitIsBit(d: CertStatus)
    requires d != 0
    ensures d & (!d + 1) != 0
    ensures (d & (!d + 1)) & ((d & (!d + 1)) - 1) == 0
  {
  }

  lemma SubsetKeepsBit(mask: CertStatus, error: CertStatus, b: CertStatus)
    requires mask & error == error && error & b != 0
    ensures mask & b != 0
  {
  }

  lemma BitOutside(mask: CertStatus, error: CertStatus, b: CertStatus, outside: CertStatus)
    requires outside == error & !mask && outside & b == b
    ensures mask & b == 0 && error & b == b
  {
  }

  lemma OutsideIsNotEmpty(mask: CertStatus, error: CertStatus)
    requires mask & error != error
    ensures error & !mask != 0
  {
  }

  lemma SubsetIsCovered(mask: CertStatus, error: CertStatus)
    requires mask & error == error
    ensures Covers(mask, error)
  {
    forall b: CertStatus | IsBit(b) && error & b != 0 ensures mask & b != 0 {
      SubsetKeepsBit(mask, error, b);
    }
  }

  lemma UncoveredBit(mask: CertStatus, error: CertStatus) returns (b: CertStatus)
    requires mask & error != error
    ensures IsBit(b) && error & b != 0 && mask & b == 0
  {
    OutsideIsNotEmpty(mask, error);
    var outside := error & !mask;
    b := LowestBit(outside);
    BitOutside(mask, error, b, outside);
  }

  lemma ComplementsApart(x: CertStatus, y: CertStatus)
    requires (!x ^ !y) == 0
    ensures x == y
  {
  }

  lemma ComplementsTogether(x: CertStatus, y: CertStatus)
    requires x == y
    ensures (!x ^ !y) == 0
  {
  }

  lemma MatchesOnlySubset(mask: CertStatus, error: CertStatus)
    requires Matches(mask, error)
    ensures error != 0 && mask & error == error
  {
    ComplementsApart(mask & error, error);
  }

  lemma SubsetMatches(mask: CertStatus, error: CertStatus)
    requires error != 0 && mask & error == error
    ensures Matches(mask, error)
  {
    ComplementsTogether(mask & error, error);
  }

  /** The bit test asks for an error, all of whose bits were allowed. */
  lemma MatchesCovered(mask: CertStatus, error: CertStatus)
    ensures Matches(mask, error) <==> error != 0 && Covers(mask, error)
  {
    if Matches(mask, error) {
      MatchesOnlySubset(mask, error);
      SubsetIsCovered(mask, error);
    }
    if error != 0 && Covers(mask, error) {
      if mask & error != error {
        var b := UncoveredBit(mask, error);
      }
      SubsetMatches(mask, error);
    }
  }

  lemma {:induction false} MaskFromHistory(history: seq<Op>, cert: Fingerprint, host: string)
    ensures var allowed := WithEntry(CacheAfter(history), host)[host].allowed;
            LatestMask(history, cert, host) == if cert in allowed then Some(allowed[cert]) else None
  {
    if history != [] {
      MaskFromHistory(history[..|history| - 1], cert, host);
    }
  }

  lemma AnswerFromMask(history: seq<Op>, cert: Fingerprint, host: string, error: CertStatus)
    ensures var mask := LatestMask(history, cert, host);
            Answer(CacheAfter(history), cert, host, error) ==
            if mask.Some? && Matches(mask.value, error) then ALLOWED else UNKNOWN
  {
    MaskFromHistory(history, cert, host);
  }

  /** After any history a query is answered ALLOWED exactly when there is an error and the latest
      Allow since the last Clear covers every bit of it; it is never answered DENIED. */
  lemma AllowedExactlyWhenCovered(history: seq<Op>, cert: Fingerprint, host: string, error: CertStatus)
    ensures var mask := LatestMask(history, cert, host);
            Answer(CacheAfter(history), cert, host, error) ==
            if mask.Some? && error != 0 && Covers(mask.value, error) then ALLOWED else UNKNOWN
  {
    AnswerFromMask(history, cert, host, error);
    var mask := LatestMask(history, cert, host);
    if mask.Some? {
      MatchesCovered(mask.value, error);
    }
  }

  function WithoutQueries(history: seq<Op>): seq<Op> {
    if history == [] then []
    else
      var last := history[|history| - 1];
      WithoutQueries(history[..|history| - 1]) + if last.Query? then [] else [last]
  }

  /** Queries leave entries for their hosts behind, and yet change no later answer. */
  lemma QueriesChangeNothing(history: seq<Op>, cert: Fingerprint, host: string, error: CertStatus)
    ensures Answer(CacheAfter(history), cert, host, error) ==
            Answer(CacheAfter(WithoutQueries(history)), cert, host, error)
  {
    AnswerFromMask(history, cert, host, error);
    AnswerFromMask(WithoutQueries(history), cert, host, error);
    MaskIgnoresQueries(history, cert, host);
  }

  lemma {:induction false} MaskIgnoresQueries(history: seq<Op>, cert: Fingerprint, host: string)
    ensures LatestMask(WithoutQueries(history), cert, host) == LatestMask(history, cert, host)
  {
    if history != [] {
      var before, op := history[..|history| - 1], history[|history| - 1];
      MaskIgnoresQueries(before, cert, host);
      assert (WithoutQueries(before) + [op])[..|WithoutQueries(before)|] == WithoutQueries(before);
      assert WithoutQueries(before) + [] == WithoutQueries(before);
    }
  }
}
