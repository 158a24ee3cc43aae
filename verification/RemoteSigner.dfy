/**
 The remote covenant signer (internal/services/remote_signer.go) and its configuration
 (internal/config/remote_signer.go).
 */
module RemoteSigner {
  import opened Bytes
  import opened Types
  import opened Wrappers
  import opened Collection
  import opened PipelineModel
  import opened Requirements
  import BatchLaws
  import BroadcastLaws
  import SetFacts
  import WitnessGen
  import Hex

  datatype Config = Config(urls: seq<string>, timeoutSeconds: int)

  datatype ParsedUrl = ParsedUrl(scheme: string, host: string, user: string)

  /** URL and key parsing as the libraries do it. */
  datatype Library = Library(parseUrl: string -> Option<ParsedUrl>, parsePubKey: bytes -> Option<PubKey>)

  datatype Parsed = Parsed(urls: seq<string>, publicKeys: seq<PubKey>, timeoutSeconds: int)

  datatype ConfigError = NoUrls | BadUrl(url: string) | BadKey(text: string) | BadTimeout | NoKeys | LengthMismatch

  /** The entry names this base URL, `scheme://host`, and as its user this public key. */
  predicate ReadsAs(lib: Library, url: string, base: string, key: PubKey) {
    && lib.parseUrl(url).Some?
    && var p := lib.parseUrl(url).value;
    && base == p.scheme + "://" + p.host
    && Hex.Decode(p.user).Some? && lib.parsePubKey(Hex.Decode(p.user).value) == Some(key)
  }

  /** What is wrong with the entry. */
  predicate FailsWith(lib: Library, url: string, error: ConfigError) {
    match lib.parseUrl(url)
    case None => error == BadUrl(url)
    case Some(p) =>
      && error == BadKey(p.user)
      && (Hex.Decode(p.user).None? || lib.parsePubKey(Hex.Decode(p.user).value).None?)
  }

  ghost predicate AllRead(lib: Library, urls: seq<string>) {
    forall i :: 0 <= i < |urls| ==> Readable(lib, urls[i])
  }

  ghost predicate Readable(lib: Library, url: string) {
    exists base, key :: ReadsAs(lib, url, base, key)
  }

  /** All entries are read, in order, or the first bad one is reported; the timeout is checked last. */
  method Parse(lib: Library, c: Config) returns (r: Result<Parsed, ConfigError>)
    ensures r.Ok? <==> c.urls != [] && AllRead(lib, c.urls) && c.timeoutSeconds > 0
    ensures r.Ok? ==> && |r.value.urls| == |r.value.publicKeys| == |c.urls|
                      && r.value.timeoutSeconds == c.timeoutSeconds
                      && forall i :: 0 <= i < |c.urls| ==> ReadsAs(lib, c.urls[i], r.value.urls[i], r.value.publicKeys[i])
    ensures c.urls == [] ==> r == Err(NoUrls)
    ensures r.Err? && c.urls != [] && AllRead(lib, c.urls) ==> r.error == BadTimeout
    ensures r.Err? && !AllRead(lib, c.urls) ==>
              exists i :: 0 <= i < |c.urls| && FailsWith(lib, c.urls[i], r.error)
                          && forall j :: 0 <= j < i ==> Readable(lib, c.urls[j])
  {
    var nUrls := |c.urls|;
    if nUrls == 0 {
      return Err(NoUrls);
    }
    var urls := new string[nUrls](_ => "");
    var publicKeys := new PubKey[nUrls](_ => PubKey(false, seq(32, _ => 0)));
    for i := 0 to nUrls
      invariant forall j :: 0 <= j < i ==> ReadsAs(lib, c.urls[j], urls[j], publicKeys[j])
    {
      var parsedUrl := lib.parseUrl(c.urls[i]);
      if parsedUrl.None? {
        return Err(BadUrl(c.urls[i]));
      }
      urls[i] := parsedUrl.value.scheme + "://" + parsedUrl.value.host;
      var publicKeyStr := parsedUrl.value.user;
      var pkBytes := Hex.Decode(publicKeyStr);
      if pkBytes.None? {
        return Err(BadKey(publicKeyStr));
      }
      var pk := lib.parsePubKey(pkBytes.value);
      if pk.None? {
        return Err(BadKey(publicKeyStr));
      }
      publicKeys[i] := pk.value;
      assert ReadsAs(lib, c.urls[i], urls[i], publicKeys[i]);
    }
    if c.timeoutSeconds <= 0 {
      return Err(BadTimeout);
    }
    return Ok(Parsed(urls[..], publicKeys[..], c.timeoutSeconds));
  }

  /** The position of the last occurrence of `key`. */
  ghost predicate LastOccurrence(keys: seq<PubKey>, key: PubKey, i: nat) {
    i < |keys| && keys[i] == key && forall j :: i < j < |keys| ==> keys[j] != key
  }

  /** Each key listed has the URL of its last occurrence, and no other key has one. */
  ghost predicate UrlTable(table: map<string, string>, keys: seq<PubKey>, urls: seq<string>)
    requires |keys| == |urls|
  {
    forall key: PubKey {:trigger CompressedHex(key)} ::
      && (CompressedHex(key) in table <==> key in keys)
      && (forall i: nat :: LastOccurrence(keys, key, i) ==> CompressedHex(key) in table && table[CompressedHex(key)] == urls[i])
  }

  lemma TableExtends(table: map<string, string>, keys: seq<PubKey>, urls: seq<string>, key: PubKey, url: string)
    requires |keys| == |urls| && UrlTable(table, keys, urls)
    ensures UrlTable(table[CompressedHex(key) := url], keys + [key], urls + [url])
  {
    var table' := table[CompressedHex(key) := url];
    forall k: PubKey
      ensures CompressedHex(k) in table' <==> k in keys + [key]
      ensures forall i: nat :: LastOccurrence(keys + [key], k, i) ==> CompressedHex(k) in table' && table'[CompressedHex(k)] == (urls + [url])[i]
    {
      CompressedHexInjective(k, key);
      forall i: nat | LastOccurrence(keys + [key], k, i)
        ensures CompressedHex(k) in table' && table'[CompressedHex(k)] == (urls + [url])[i]
      {
        if k == key {
          assert (keys + [key])[|keys|] == k;
        } else {
          assert forall j :: i < j < |keys| ==> (keys + [key])[j] == keys[j];
          assert LastOccurrence(keys, k, i);
        }
      }
    }
  }

  method GetPubKeyToUrlMap(pc: Parsed) returns (r: Result<map<string, string>, ConfigError>)
    ensures r.Ok? <==> pc.urls != [] && |pc.urls| == |pc.publicKeys|
    ensures r.Ok? ==> UrlTable(r.value, pc.publicKeys, pc.urls)
    ensures r.Err? ==> r.error == if pc.urls == [] then NoUrls else if pc.publicKeys == [] then NoKeys else LengthMismatch
  {
    if |pc.urls| == 0 {
      return Err(NoUrls);
    }
    if |pc.publicKeys| == 0 {
      return Err(NoKeys);
    }
    if |pc.urls| != |pc.publicKeys| {
      return Err(LengthMismatch);
    }
    var mapPkToUrl: map<string, string> := map[];
    for i := 0 to |pc.urls|
      invariant UrlTable(mapPkToUrl, pc.publicKeys[..i], pc.urls[..i])
    {
      TableExtends(mapPkToUrl, pc.publicKeys[..i], pc.urls[..i], pc.publicKeys[i], pc.urls[i]);
      assert pc.publicKeys[..i + 1] == pc.publicKeys[..i] + [pc.publicKeys[i]];
      assert pc.urls[..i + 1] == pc.urls[..i] + [pc.urls[i]];
      mapPkToUrl := mapPkToUrl[CompressedHex(pc.publicKeys[i]) := pc.urls[i]];
    }
    assert pc.publicKeys[..|pc.urls|] == pc.publicKeys && pc.urls[..|pc.urls|] == pc.urls;
    return Ok(mapPkToUrl);
  }

  // ---------- signing ----------

  /** The signing service behind each URL; `None` is a failed request. */
  type Network = (string, PubKey) -> Option<Signature>

  function SignUnbondingTransaction(pkToUrl: map<string, string>, net: Network, key: PubKey): Reply {
    var pkStr := CompressedHex(key);
    if pkStr !in pkToUrl then None
    else
      match net(pkToUrl[pkStr], key)
      case None => None
      case Some(sig) => Some(Pair(key, sig))
  }

  lemma LastOccurrenceExists(keys: seq<PubKey>, key: PubKey) returns (i: nat)
    requires key in keys
    ensures LastOccurrence(keys, key, i)
  {
    i := |keys| - 1;
    while keys[i] != key
      invariant i < |keys| && forall j :: i < j < |keys| ==> keys[j] != key
      decreases i
    {
      i := i - 1;
    }
  }

  /**
   What the signer answers for a key, given the configured keys and their URLs: the signature that the
   service at the URL of the key's last occurrence returns for it, with the key itself; nothing exactly when
   the key is not configured or that request fails.
   */
  lemma RemoteAnswer(table: map<string, string>, listed: seq<PubKey>, urls: seq<string>, net: Network, key: PubKey)
    requires |listed| == |urls| && UrlTable(table, listed, urls)
    ensures forall i: nat, sig :: LastOccurrence(listed, key, i) ==>
              (SignUnbondingTransaction(table, net, key) == Some(Pair(key, sig)) <==> net(urls[i], key) == Some(sig))
    ensures SignUnbondingTransaction(table, net, key) == None
            <==> key !in listed || exists i: nat :: LastOccurrence(listed, key, i) && net(urls[i], key) == None
    ensures SignUnbondingTransaction(table, net, key).Some? ==> SignUnbondingTransaction(table, net, key).value.key == key
  {
    assert CompressedHex(key) in table <==> key in listed;
    if key in listed {
      var i := LastOccurrenceExists(listed, key);
      assert table[CompressedHex(key)] == urls[i];
      assert forall j: nat :: LastOccurrence(listed, key, j) ==> j == i;
    }
  }

  /** The answers of an attempt come from the remote signer. */
  ghost predicate AnsweredBy(a: Answers, pkToUrl: map<string, string>, net: Network, keys: seq<PubKey>) {
    forall i :: 0 <= i < |keys| ==> a.replies(i) == SignUnbondingTransaction(pkToUrl, net, keys[i])
  }

  /** The service configured for this key returns a signature that verifies under it. */
  ghost predicate ServiceSigns(w: World, m: Message, listed: seq<PubKey>, urls: seq<string>, net: Network, key: PubKey)
    requires |listed| == |urls|
  {
    exists j: nat :: LastOccurrence(listed, key, j) && net(urls[j], key).Some? && w.verify(key.x, net(urls[j], key).value, m)
  }

  /** Exactly which committee members sign: those whose configured service returns a signature for their key
      that verifies for this transaction and the rebuilt output. */
  lemma RemoteSigners(w: World, a: Answers, sub: Submission, table: map<string, string>, listed: seq<PubKey>, urls: seq<string>, net: Network)
    requires ChecksPass(w, a, sub) && |listed| == |urls| && UrlTable(table, listed, urls)
    requires AnsweredBy(a, table, net, Committee(w, a, sub))
    ensures forall i: nat :: i in Signers(w, a, sub)
              <==> i < |Committee(w, a, sub)| && ServiceSigns(w, ToSign(w, a, sub), listed, urls, net, Committee(w, a, sub)[i])
  {
    var keys, m := Committee(w, a, sub), ToSign(w, a, sub);
    forall i: nat | i < |keys|
      ensures i in Signers(w, a, sub) <==> ServiceSigns(w, m, listed, urls, net, keys[i])
    {
      RemoteAnswer(table, listed, urls, net, keys[i]);
      if i in Signers(w, a, sub) {
        var j := LastOccurrenceExists(listed, keys[i]);
        assert net(urls[j], keys[i]).Some?;
      }
    }
  }

  /** The committee positions whose key has a URL. */
  function Configured(pkToUrl: map<string, string>, keys: seq<PubKey>): set<nat> {
    set i: nat | i < |keys| && CompressedHex(keys[i]) in pkToUrl
  }

  /** Only configured members sign, each with a pair for the key it was asked for, so that the answers are
      credible for distinct keys. */
  lemma RemoteSignerPairs(w: World, a: Answers, sub: Submission, pkToUrl: map<string, string>, net: Network)
    requires ChecksPass(w, a, sub) && AnsweredBy(a, pkToUrl, net, Committee(w, a, sub))
    ensures Signers(w, a, sub) <= Configured(pkToUrl, Committee(w, a, sub))
    ensures forall i :: 0 <= i < |Committee(w, a, sub)| && a.replies(i).Some? ==> a.replies(i).value.key == Committee(w, a, sub)[i]
    ensures WitnessGen.DistinctXOnly(Committee(w, a, sub)) ==> CredibleSigners(w, a, sub)
  {
    var keys := Committee(w, a, sub);
    forall i | i in Signers(w, a, sub)
      ensures i in Configured(pkToUrl, keys) && OwnSignature(w, keys, ToSign(w, a, sub), a.replies(i))
    {
      assert keys[i].x == a.replies(i).value.key.x;
    }
  }

  /**
   With fewer configured members than the quorum, a transaction whose checks pass always ends without
   quorum, and with a store that accepts the write it is recorded so.
   */
  lemma TooFewConfigured(w: World, s: Sys, i: nat, pkToUrl: map<string, string>, net: Network)
    requires i < |s.queue| && ChecksPass(w, w.answers(|s.history|), s.queue[i].sub)
    requires var (a, sub) := (w.answers(|s.history|), s.queue[i].sub);
      && AnsweredBy(a, pkToUrl, net, Committee(w, a, sub))
      && |Configured(pkToUrl, Committee(w, a, sub))| < ParamsInForce(a).value.quorum
    ensures Decide(w, s.queue[i], w.answers(|s.history|)).verdict == NoQuorum
    ensures WriteTaken(w, |s.history|) ==> Step(w, s, i).outcome.Finished?
                                           && Step(w, s, i).s.queue[i].state == FailedToGetCovenantSignatures
  {
    var (a, e) := (w.answers(|s.history|), s.queue[i]);
    RemoteSignerPairs(w, a, e.sub, pkToUrl, net);
    SetFacts.SubsetSize(Signers(w, a, e.sub), Configured(pkToUrl, Committee(w, a, e.sub)));
    BroadcastLaws.VerdictMeaning(w, e, a);
    assert Decide(w, e, a).verdict == NoQuorum;
    BatchLaws.StepLaw(w, s, i);
  }

  /** With the remote signer every broadcast transaction of a committee with distinct keys is fully
      witnessed: that the answers are credible, which the gate depends on, is the signer's own doing. */
  lemma RemoteBroadcastGate(w: World, ops: seq<Op>, t: nat, pkToUrl: map<string, string>, net: Network)
    requires t < |Execute(w, EMPTY_SYS, ops).history|
    requires SendCalled(Execute(w, EMPTY_SYS, ops).history[t].verdict)
    requires ParamsInForce(w.answers(t)).Some? ==>
               var params := ParamsInForce(w.answers(t)).value;
               ProperCommittee(params) && AnsweredBy(w.answers(t), pkToUrl, net, params.keys)
    ensures var ev := Execute(w, EMPTY_SYS, ops).history[t];
      && ChecksPass(w, w.answers(t), ev.sub) && ev.wit.Witness?
      && FullyWitnessed(w, w.answers(t), ev.sub, ev.wit.covenant)
  {
    BroadcastLaws.BroadcastGate(w, ops, t);
    RemoteSignerPairs(w, w.answers(t), Execute(w, EMPTY_SYS, ops).history[t].sub, pkToUrl, net);
  }
}
