/** Custom-domain claims: the TXT record a caller must publish, the two DNS
    checks over given lookup answers, the bounded verification run, the
    three-step provisioning it triggers, and deletion. */
module CustomDomain {
  import opened Wrappers
  import opened Text
  import opened Cluster

  datatype DomainStatus = Pending | Success | Error

  /** A claim as the code keeps it (the database row id and creation time are left out). */
  datatype Claim = Claim(
    cdid: string,
    domain: string,
    target: string,
    txtName: string,
    txtValue: string,
    status: DomainStatus,
    userUID: string)

  // ---------------------------------------------------------------------------
  // Hex tokens

  /** A lower-case hexadecimal digit. */
  predicate IsHexChar(c: char) {
    '0' <= c <= '9' || 'a' <= c <= 'f'
  }

  predicate IsHex(s: string) {
    forall i :: 0 <= i < |s| ==> IsHexChar(s[i])
  }

  /** The digit for a value below 16, as `encoding/hex` spells it. */
  function HexDigit(v: nat): (c: char)
    requires v < 16
    ensures IsHexChar(c)
  {
    if v < 10 then ('0' as int + v) as char else ('a' as int + v - 10) as char
  }

  function HexValue(c: char): (v: nat)
    requires IsHexChar(c)
    ensures v < 16 && HexDigit(v) == c
  {
    if '0' <= c <= '9' then (c as int - '0' as int) as nat else (c as int - 'a' as int + 10) as nat
  }

  /** `HexValue` inverts `HexDigit`. */
  lemma HexValueOfDigit(v: nat)
    requires v < 16
    ensures HexValue(HexDigit(v)) == v
  {
  }

  /** Lower-case hexadecimal spelling, two characters per byte. */
  function HexEncode(bytes: seq<byte>): (s: string)
    ensures |s| == 2 * |bytes|
    ensures IsHex(s)
  {
    if |bytes| == 0 then ""
    else
      var b := bytes[0] as int;
      [HexDigit(b / 16), HexDigit(b % 16)] + HexEncode(bytes[1..])
  }

  /** Reads back pairs of hex digits. */
  function HexDecode(s: string): seq<byte>
    requires IsHex(s) && |s| % 2 == 0
  {
    if |s| == 0 then []
    else [(HexValue(s[0]) * 16 + HexValue(s[1])) as byte] + HexDecode(s[2..])
  }

  /** Hex encoding loses nothing. */
  lemma {:induction false} HexRoundTrip(bytes: seq<byte>)
    ensures HexDecode(HexEncode(bytes)) == bytes
  {
    if |bytes| > 0 {
      var b := bytes[0] as int;
      var hi, lo := HexDigit(b / 16), HexDigit(b % 16);
      var rest := HexEncode(bytes[1..]);
      var s := HexEncode(bytes);
      assert s == [hi, lo] + rest;
      assert s[2..] == rest;
      HexValueOfDigit(b / 16);
      HexValueOfDigit(b % 16);
      assert HexValue(hi) * 16 + HexValue(lo) == b;
      assert HexDecode(s) == [b as byte] + HexDecode(rest);
      HexRoundTrip(bytes[1..]);
      assert [bytes[0]] + bytes[1..] == bytes;
    }
  }

  /** Encoding works byte by byte, so a prefix of the bytes encodes to a prefix of the text. */
  lemma {:induction false} HexEncodeConcat(a: seq<byte>, b: seq<byte>)
    ensures HexEncode(a + b) == HexEncode(a) + HexEncode(b)
    decreases |a|
  {
    if |a| == 0 {
      assert a + b == b;
    } else {
      var ab := a + b;
      assert ab[0] == a[0];
      assert ab[1..] == a[1..] + b;
      HexEncodeConcat(a[1..], b);
    }
  }

  /** The verification token: 16 random bytes in hex. The bytes are an input. */
  function GenerateVerifyToken(random: seq<byte>): (t: string)
    requires |random| == 16
    ensures |t| == 32 && IsHex(t)
    ensures HexDecode(t) == random
  {
    HexRoundTrip(random);
    HexEncode(random)
  }

  const TxtNamePrefix := "_combinator-verify."
  const TxtValuePrefix := "combinator-verify="

  /** Creates a pending claim with its TXT record pair; `idRandom` and
      `tokenRandom` are the two draws of random bytes and `dbCreate` the answer
      of the insert. A failed insert returns its error and no claim. */
  function NewCustomDomain(userUID: string, domain: string, target: string,
                           idRandom: seq<byte>, tokenRandom: seq<byte>, dbCreate: Outcome): (r: Result<Claim>)
    requires |idRandom| == 16 && |tokenRandom| == 16
    ensures r.Ok? <==> dbCreate.Succeeds?
    ensures r.Err? ==> r.msg == dbCreate.msg
    ensures r.Ok? ==>
              && r.value.status == Pending
              && r.value.domain == domain && r.value.target == target && r.value.userUID == userUID
              && |r.value.cdid| == 8 && IsHex(r.value.cdid) && HexDecode(r.value.cdid) == idRandom[..4]
              && StartsWith(r.value.txtName, TxtNamePrefix) && TrimPrefix(r.value.txtName, TxtNamePrefix) == domain
              && StartsWith(r.value.txtValue, TxtValuePrefix)
              && var token := TrimPrefix(r.value.txtValue, TxtValuePrefix);
                 |token| == 32 && IsHex(token) && HexDecode(token) == tokenRandom
  {
    var cdid := GenerateVerifyToken(idRandom)[..8];
    HexEncodeConcat(idRandom[..4], idRandom[4..]);
    assert idRandom[..4] + idRandom[4..] == idRandom;
    assert cdid == HexEncode(idRandom[..4]);
    HexRoundTrip(idRandom[..4]);
    var token := GenerateVerifyToken(tokenRandom);
    var txtName := TxtNamePrefix + domain;
    var txtValue := TxtValuePrefix + token;
    TrimPrefixUndoesConcat(TxtNamePrefix, domain);
    TrimPrefixUndoesConcat(TxtValuePrefix, token);
    if dbCreate.Fails? then Err(dbCreate.msg)
    else Ok(Claim(cdid, domain, target, txtName, txtValue, Pending, userUID))
  }

  // ---------------------------------------------------------------------------
  // DNS checks over given answers (None: the lookup failed)

  /** A linear scan for `v`, as `slices.Contains` does. */
  function Contains(records: seq<string>, v: string): (found: bool)
    ensures found <==> v in records
  {
    if |records| == 0 then false
    else records[0] == v || Contains(records[1..], v)
  }

  /** The TXT check: the lookup succeeded and one record is exactly the claim's TXT value. */
  function VerifyTXT(claim: Claim, answer: Option<seq<string>>): (ok: bool)
    ensures ok <==> answer.Some? && claim.txtValue in answer.value
  {
    match answer
    case None => false
    case Some(records) => Contains(records, claim.txtValue)
  }

  /** Drops one trailing '.' if there is one. */
  function TrimTrailingDot(s: string): (r: string)
    ensures |s| > 0 && s[|s| - 1] == '.' ==> r + "." == s
    ensures !(|s| > 0 && s[|s| - 1] == '.') ==> r == s
  {
    if |s| > 0 && s[|s| - 1] == '.' then s[..|s| - 1] else s
  }

  /** The CNAME check: the answer with one trailing dot removed equals the target
      with one trailing dot removed, or the target as stored. */
  function VerifyCNAME(claim: Claim, answer: Option<string>): (ok: bool)
    ensures ok ==> answer.Some?
    ensures answer.Some? && TrimTrailingDot(answer.value) == TrimTrailingDot(claim.target) ==> ok
    ensures answer.Some? && TrimTrailingDot(answer.value) == claim.target ==> ok
    ensures ok ==> TrimTrailingDot(answer.value) in {TrimTrailingDot(claim.target), claim.target}
  {
    match answer
    case None => false
    case Some(cname) =>
      var name := TrimTrailingDot(cname);
      name == TrimTrailingDot(claim.target) || name == claim.target
  }

  /** The usual DNS answer, with or without the root dot, matches a target written
      without one; an answer carrying two trailing dots does not. */
  lemma CnameTrailingDot(claim: Claim)
    requires |claim.target| > 0 && claim.target[|claim.target| - 1] != '.'
    ensures VerifyCNAME(claim, Some(claim.target))
    ensures VerifyCNAME(claim, Some(claim.target + "."))
    ensures !VerifyCNAME(claim, Some(claim.target + ".."))
    ensures !VerifyCNAME(claim, None)
  {
    var t := claim.target;
    assert (t + ".")[..|t + "."| - 1] == t;
    assert (t + "..")[..|t + ".."| - 1] == t + ".";
    assert |t + "."| != |t|;
  }

  // ---------------------------------------------------------------------------
  // Provisioning after a successful verification

  /** The resources provisioning creates, in creation order. */
  datatype Created = ServiceCreated | CertificateCreated | RouteCreated

  const CreationOrder: seq<Created> := [ServiceCreated, CertificateCreated, RouteCreated]

  /** The answers of the three Create calls. */
  datatype ProvisionFaults = ProvisionFaults(service: Outcome, certificate: Outcome, route: Outcome)

  datatype Provisioned = Provisioned(cluster: Cluster, created: seq<Created>, err: Error)

  function ResourceName(cdid: string): string {
    "custom-domain-" + cdid
  }

  function TlsSecretName(cdid: string): string {
    "custom-domain-tls-" + cdid
  }

  function ClaimLabels(claim: Claim): map<string, string> {
    map["app" := "custom-domain", "user-uid" := claim.userUID]
  }

  function ClaimService(claim: Claim): Service {
    Service(Meta(ClaimLabels(claim), ""), ExternalName(claim.target))
  }

  function ClaimCertificate(claim: Claim): Certificate {
    Certificate(Meta(ClaimLabels(claim), ""), TlsSecretName(claim.cdid), [claim.domain], "zerossl-issuer", "ClusterIssuer")
  }

  function ClaimRoute(claim: Claim): IngressRoute {
    IngressRoute(
      Meta(ClaimLabels(claim), ""),
      ["websecure"],
      "Host(`" + claim.domain + "`)",
      "Rule",
      [RouteBackend(ResourceName(claim.cdid), None, 443)],
      TlsSecretName(claim.cdid))
  }

  /** Creates the ExternalName service, then the certificate, then the route, all
      named after the claim; the first failed create returns its error and the
      later ones are not attempted. */
  function CreateIngressRoute(env: Env, clients: Clients, claim: Claim, c: Cluster, faults: ProvisionFaults): (p: Provisioned)
    ensures p.created <= CreationOrder
    ensures p.err.None? <==> p.created == CreationOrder
    ensures |p.created| >= 1 <==> clients.core && clients.dynamic && faults.service.Succeeds?
    ensures |p.created| >= 2 <==> |p.created| >= 1 && faults.certificate.Succeeds?
    ensures |p.created| == 3 <==> |p.created| >= 2 && faults.route.Succeeds?
    ensures var ref := Ref(env.ingressNamespace, "custom-domain-" + claim.cdid);
            && (|p.created| >= 1 ==> ref in p.cluster.services && p.cluster.services[ref].spec == ExternalName(claim.target))
            && (|p.created| >= 2 ==>
                  && ref in p.cluster.certificates
                  && p.cluster.certificates[ref].secretName == "custom-domain-tls-" + claim.cdid
                  && p.cluster.certificates[ref].dnsNames == [claim.domain])
            && (|p.created| == 3 ==>
                  && ref in p.cluster.ingressRoutes
                  && p.cluster.ingressRoutes[ref].tlsSecretName == "custom-domain-tls-" + claim.cdid
                  && p.cluster.ingressRoutes[ref].services == [RouteBackend("custom-domain-" + claim.cdid, None, 443)])
            && p.cluster.services - {ref} == c.services - {ref}
            && p.cluster.certificates - {ref} == c.certificates - {ref}
            && p.cluster.ingressRoutes - {ref} == c.ingressRoutes - {ref}
            && p.cluster == c.(services := p.cluster.services, certificates := p.cluster.certificates,
                               ingressRoutes := p.cluster.ingressRoutes)
            && (|p.created| < 1 ==> p.cluster.services == c.services)
            && (|p.created| < 2 ==> p.cluster.certificates == c.certificates)
            && (|p.created| < 3 ==> p.cluster.ingressRoutes == c.ingressRoutes)
  {
    if !clients.dynamic || !clients.core then Provisioned(c, [], Some("k8s client not initialized"))
    else
      var ref := Ref(env.ingressNamespace, ResourceName(claim.cdid));
      if faults.service.Fails? then Provisioned(c, [], Some("create service failed: " + faults.service.msg))
      else
        var c1 := c.(services := c.services[ref := ClaimService(claim)]);
        if faults.certificate.Fails? then
          Provisioned(c1, [ServiceCreated], Some("create certificate failed: " + faults.certificate.msg))
        else
          var c2 := c1.(certificates := c1.certificates[ref := ClaimCertificate(claim)]);
          if faults.route.Fails? then
            Provisioned(c2, [ServiceCreated, CertificateCreated], Some("create ingressroute failed: " + faults.route.msg))
          else
            Provisioned(c2.(ingressRoutes := c2.ingressRoutes[ref := ClaimRoute(claim)]), CreationOrder, None)
  }

  // ---------------------------------------------------------------------------
  // The verification run

  const MaxAttempts: nat := 12

  /** What DNS answered in one attempt: the TXT records and the CNAME, each
      None when the lookup failed. */
  datatype DnsAnswers = DnsAnswers(txt: Option<seq<string>>, cname: Option<string>)

  predicate AttemptPasses(claim: Claim, a: DnsAnswers) {
    VerifyTXT(claim, a.txt) && VerifyCNAME(claim, a.cname)
  }

  /** What one verification run did: how many attempts looked at DNS, the status
      values written for the claim in order, and the provisioning run, if any. */
  datatype Verification = Verification(attempts: nat, statusWrites: seq<DomainStatus>, provisioning: Option<Provisioned>)

  /** The attempts from index `i` on. `answers[k]` is what DNS would answer at
      attempt k; the wait before each attempt is not modelled. */
  function VerifyFrom(env: Env, clients: Clients, claim: Claim, c: Cluster,
                      answers: seq<DnsAnswers>, faults: ProvisionFaults, i: nat): (v: Verification)
    requires i <= |answers| == MaxAttempts
    ensures i <= v.attempts <= MaxAttempts
    ensures v.provisioning.Some? <==> exists k :: i <= k < MaxAttempts && AttemptPasses(claim, answers[k])
    ensures v.provisioning.Some? ==>
              && i < v.attempts
              && AttemptPasses(claim, answers[v.attempts - 1])
              && (forall k :: i <= k < v.attempts - 1 ==> !AttemptPasses(claim, answers[k]))
              && v.provisioning.value == CreateIngressRoute(env, clients, claim, c, faults)
              && v.statusWrites == (if v.provisioning.value.err.None? then [Success] else [Success, Error])
    ensures v.provisioning.None? ==> v.attempts == MaxAttempts && v.statusWrites == [Error]
    decreases MaxAttempts - i
  {
    if i == MaxAttempts then Verification(MaxAttempts, [Error], None)
    else if AttemptPasses(claim, answers[i]) then
      var p := CreateIngressRoute(env, clients, claim, c, faults);
      Verification(i + 1, if p.err.None? then [Success] else [Success, Error], Some(p))
    else VerifyFrom(env, clients, claim, c, answers, faults, i + 1)
  }

  /** The verification run started for a new claim: up to twelve attempts. */
  function StartVerification(env: Env, clients: Clients, claim: Claim, c: Cluster,
                             answers: seq<DnsAnswers>, faults: ProvisionFaults): (v: Verification)
    requires |answers| == MaxAttempts
    ensures 1 <= v.attempts <= MaxAttempts
    ensures |v.statusWrites| >= 1 && v.statusWrites[0] != Pending
  {
    VerifyFrom(env, clients, claim, c, answers, faults, 0)
  }

  /** The claim's status once the run is over: the last status written. */
  function FinalStatus(v: Verification): DomainStatus
    requires |v.statusWrites| > 0
  {
    v.statusWrites[|v.statusWrites| - 1]
  }

  /** The cluster once the run is over. */
  function FinalCluster(c: Cluster, v: Verification): Cluster {
    if v.provisioning.Some? then v.provisioning.value.cluster else c
  }

  /** When attempt k is the first one whose checks both pass, the run stops
      there, writes `success`, provisions once, and ends `success` exactly when
      provisioning did not fail (otherwise `success` then `error`). */
  lemma FirstPassingAttemptWins(env: Env, clients: Clients, claim: Claim, c: Cluster,
                                answers: seq<DnsAnswers>, faults: ProvisionFaults, k: nat)
    requires |answers| == MaxAttempts && k < MaxAttempts
    requires AttemptPasses(claim, answers[k])
    requires forall j :: 0 <= j < k ==> !AttemptPasses(claim, answers[j])
    ensures var v := StartVerification(env, clients, claim, c, answers, faults);
            && v.attempts == k + 1
            && v.provisioning == Some(CreateIngressRoute(env, clients, claim, c, faults))
            && v.statusWrites[0] == Success
            && (FinalStatus(v) == Success <==> v.provisioning.value.err.None?)
            && (v.provisioning.value.err.Some? ==> v.statusWrites == [Success, Error])
  {
  }

  /** When no attempt passes, all twelve attempts run, `error` is written once,
      nothing is provisioned and the cluster is untouched. */
  lemma NoPassingAttemptFails(env: Env, clients: Clients, claim: Claim, c: Cluster,
                              answers: seq<DnsAnswers>, faults: ProvisionFaults)
    requires |answers| == MaxAttempts
    requires forall j :: 0 <= j < MaxAttempts ==> !AttemptPasses(claim, answers[j])
    ensures var v := StartVerification(env, clients, claim, c, answers, faults);
            && v.attempts == MaxAttempts
            && v.statusWrites == [Error]
            && v.provisioning.None?
            && FinalCluster(c, v) == c
  {
  }

  /** Answers after the deciding attempt are never consulted. */
  lemma {:induction false} LaterAnswersIgnored(env: Env, clients: Clients, claim: Claim, c: Cluster,
                                              answers: seq<DnsAnswers>, other: seq<DnsAnswers>,
                                              faults: ProvisionFaults, i: nat)
    requires i <= |answers| == |other| == MaxAttempts
    requires var n := VerifyFrom(env, clients, claim, c, answers, faults, i).attempts;
             forall k :: i <= k < n ==> answers[k] == other[k]
    ensures VerifyFrom(env, clients, claim, c, answers, faults, i) == VerifyFrom(env, clients, claim, c, other, faults, i)
    decreases MaxAttempts - i
  {
    if i < MaxAttempts {
      assert answers[i] == other[i];
      if !AttemptPasses(claim, answers[i]) {
        assert !AttemptPasses(claim, other[i]);
        var v := VerifyFrom(env, clients, claim, c, answers, faults, i + 1);
        assert VerifyFrom(env, clients, claim, c, answers, faults, i) == v;
        assert VerifyFrom(env, clients, claim, c, other, faults, i) == VerifyFrom(env, clients, claim, c, other, faults, i + 1);
        LaterAnswersIgnored(env, clients, claim, c, answers, other, faults, i + 1);
      }
    }
  }

  /** The status ends terminal: never back to `pending`, and `success` only with
      every provisioned resource in place. */
  lemma VerificationEndsTerminal(env: Env, clients: Clients, claim: Claim, c: Cluster,
                                 answers: seq<DnsAnswers>, faults: ProvisionFaults)
    requires |answers| == MaxAttempts
    ensures var v := StartVerification(env, clients, claim, c, answers, faults);
            && Pending !in v.statusWrites
            && |v.statusWrites| <= 2
            && (FinalStatus(v) == Success <==> v.provisioning.Some? && v.provisioning.value.created == CreationOrder)
  {
  }

  /** The worked example, first half: the claim for `example.com` publishes its
      TXT record at `_combinator-verify.example.com` and starts pending. */
  lemma ExampleClaimRecord(idRandom: seq<byte>, tokenRandom: seq<byte>)
    requires |idRandom| == 16 && |tokenRandom| == 16
    ensures var r := NewCustomDomain("u1", "example.com", "app.svc.example.net", idRandom, tokenRandom, Succeeds);
            r.Ok? && r.value.txtName == TxtNamePrefix + "example.com" && r.value.status == Pending
  {
    var r := NewCustomDomain("u1", "example.com", "app.svc.example.net", idRandom, tokenRandom, Succeeds);
    assert TrimPrefix(r.value.txtName, TxtNamePrefix) == "example.com";
    assert TxtNamePrefix + TrimPrefix(r.value.txtName, TxtNamePrefix) == r.value.txtName;
    assert r.value.txtName == TxtNamePrefix + "example.com";
  }

  /** The worked example, second half: DNS answers with the expected TXT value
      among others and the CNAME with its root dot on the first attempt, and
      provisioning succeeds; the run stops after one attempt with `success`. */
  lemma ExampleDomainVerifies(env: Env, c: Cluster, claim: Claim, rest: seq<DnsAnswers>)
    requires claim.domain == "example.com" && claim.target == "app.svc.example.net"
    requires |rest| == MaxAttempts - 1
    ensures var answers := [DnsAnswers(Some(["unrelated", claim.txtValue]), Some("app.svc.example.net."))] + rest;
            var v := StartVerification(env, Clients(true, true), claim, c, answers,
                                       ProvisionFaults(Succeeds, Succeeds, Succeeds));
            v.attempts == 1 && v.statusWrites == [Success]
  {
    var answers := [DnsAnswers(Some(["unrelated", claim.txtValue]), Some("app.svc.example.net."))] + rest;
    assert claim.txtValue in ["unrelated", claim.txtValue];
    CnameTrailingDot(claim);
    assert "app.svc.example.net" + "." == "app.svc.example.net.";
    assert AttemptPasses(claim, answers[0]);
    FirstPassingAttemptWins(env, Clients(true, true), claim, c, answers, ProvisionFaults(Succeeds, Succeeds, Succeeds), 0);
  }

  // ---------------------------------------------------------------------------
  // Deletion

  /** The answers of the three best-effort cluster deletes. */
  datatype DeleteFaults = DeleteFaults(service: Outcome, route: Outcome, certificate: Outcome)

  /** Deletes the claim row first; if that fails its error is returned and the
      cluster is untouched. Otherwise the service, route and certificate named
      after the claim are deleted best-effort and no error is returned. */
  function DeleteCustomDomain(env: Env, clients: Clients, cdid: string, c: Cluster,
                              dbDelete: Outcome, faults: DeleteFaults): (r: (Error, Cluster))
    ensures dbDelete.Fails? ==> r.0 == Some(dbDelete.msg) && r.1 == c
    ensures dbDelete.Succeeds? ==> r.0.None?
    ensures var ref := Ref(env.ingressNamespace, "custom-domain-" + cdid);
            var ok := dbDelete.Succeeds?;
            && RemovesOnly(c.services, r.1.services, ref, ok && clients.core && faults.service.Succeeds?)
            && RemovesOnly(c.ingressRoutes, r.1.ingressRoutes, ref, ok && clients.dynamic && faults.route.Succeeds?)
            && RemovesOnly(c.certificates, r.1.certificates, ref, ok && clients.dynamic && faults.certificate.Succeeds?)
            && r.1 == c.(services := r.1.services, ingressRoutes := r.1.ingressRoutes, certificates := r.1.certificates)
  {
    if dbDelete.Fails? then (Some(dbDelete.msg), c)
    else
      var ref := Ref(env.ingressNamespace, ResourceName(cdid));
      var c' := c.(
        services := Drop(c.services, ref, clients.core && faults.service.Succeeds?),
        ingressRoutes := Drop(c.ingressRoutes, ref, clients.dynamic && faults.route.Succeeds?),
        certificates := Drop(c.certificates, ref, clients.dynamic && faults.certificate.Succeeds?));
      (None, c')
  }

  /** Deleting a claim whose resources were provisioned and whose cluster
      deletes all succeed leaves none of them behind, and a second delete with
      a working database is harmless. */
  lemma DeleteRemovesProvisioned(env: Env, claim: Claim, c: Cluster, faults: ProvisionFaults,
                                 again: DeleteFaults)
    requires CreateIngressRoute(env, Clients(true, true), claim, c, faults).err.None?
    ensures var c1 := CreateIngressRoute(env, Clients(true, true), claim, c, faults).cluster;
            var ref := Ref(env.ingressNamespace, "custom-domain-" + claim.cdid);
            var all := DeleteFaults(Succeeds, Succeeds, Succeeds);
            var d := DeleteCustomDomain(env, Clients(true, true), claim.cdid, c1, Succeeds, all);
            && d.0.None?
            && ref !in d.1.services && ref !in d.1.ingressRoutes && ref !in d.1.certificates
            && DeleteCustomDomain(env, Clients(true, true), claim.cdid, d.1, Succeeds, again) == (None, d.1)
  {
    var c1 := CreateIngressRoute(env, Clients(true, true), claim, c, faults).cluster;
    var ref := Ref(env.ingressNamespace, ResourceName(claim.cdid));
    var d := DeleteCustomDomain(env, Clients(true, true), claim.cdid, c1, Succeeds, DeleteFaults(Succeeds, Succeeds, Succeeds));
    assert d.1.services - {ref} == d.1.services;
    assert d.1.ingressRoutes - {ref} == d.1.ingressRoutes;
    assert d.1.certificates - {ref} == d.1.certificates;
  }
}
