/**
  The license trust list: bundled keys, operator keys appended from a file, and the two verification
  paths.  The signature check of one key is an arbitrary deterministic predicate.
 */
module LicenseTrust {
  import opened Wrappers
  import opened Text

  datatype TrustedKey = TrustedKey(keyId: string, isEd25519: bool, material: string, rsaPadding: string,
                                   rsaHash: string,
                                   accepts: set<string>, description: string, deprecatedAfter: Option<int>)

  const DEMO := TrustedKey("demo-legacy", true, "d6341922909a07880fc3e43ebb4c71eaa2f81d5ca82cd3c178d59d6513e81f7d",
                           "", "", {"demo"}, "ip·Solis demo licenses — Ed25519, issued by ipsolis-web", None)
  const COMMERCIAL := TrustedKey("commercial-2026", true,
                                 "a3483ce7706bd18c6176aa6eab320beda9761bd5b715d5b40323892b52205e27",
                                 "", "", {"commercial"},
                                 "ip·Solis commercial licenses — Ed25519, issued by ipsolis-web shop", None)
  const BUNDLED := [DEMO, COMMERCIAL]

  // ----- parsing operator entries -----

  /** `accepted_license_types`: absent, a list, a bare string (iterated by character), or not iterable. */
  datatype AcceptedField = NotGiven | Listed(types: seq<string>) | BareText(text: string) | NotIterable
  /** A date field: absent or empty, unparsable, or a day. */
  datatype DateField = NoDate | BadDate | OnDay(day: int)
  /** A list item of the file.  `hexBytes` is the decoded length of `public_key_hex`, if it is hexadecimal. */
  datatype Entry = NotADict | Dict(keyId: Option<string>, algorithm: Option<string>, description: Option<string>,
                                   accepted: AcceptedField, deprecatedAfter: DateField,
                                   publicKeyHex: string, hexBytes: Option<nat>, publicKeyPem: string,
                                   rsaPadding: Option<string>, rsaHash: Option<string>)

  function Chars(s: string): set<string> {
    set i | 0 <= i < |s| :: [s[i]]
  }

  function AcceptedTypes(f: AcceptedField): Option<set<string>> {
    match f
    case NotGiven => Some({"demo"})
    case Listed(types) => Some(set t | t in types)
    case BareText(text) => Some(Chars(text))
    case NotIterable => None
  }

  /** `_parse_entry`: a key, or nothing when the entry is malformed. */
  function ParseEntry(e: Entry): Option<TrustedKey> {
    if e.NotADict? || e.keyId.None? || e.algorithm.None? then None
    else
      var algorithm := Lower(e.algorithm.value);
      var accepted := AcceptedTypes(e.accepted);
      var description := e.description.GetOr(e.keyId.value);
      if (algorithm != "rsa" && algorithm != "ed25519") || accepted.None? || e.deprecatedAfter.BadDate? then None
      else
        var deprecated := if e.deprecatedAfter.OnDay? then Some(e.deprecatedAfter.day) else None;
        if algorithm == "ed25519" then
          if e.hexBytes != Some(32) then None
          else Some(TrustedKey(e.keyId.value, true, e.publicKeyHex, "", "", accepted.value, description, deprecated))
        else if Trim(e.publicKeyPem) == "" then None
        else Some(TrustedKey(e.keyId.value, false, Trim(e.publicKeyPem) + "\n", e.rsaPadding.GetOr("pkcs1v15"),
                             e.rsaHash.GetOr("sha256"), accepted.value, description, deprecated))
  }

  function EntryId(e: Entry): string {
    if e.Dict? then e.keyId.GetOr("") else ""
  }

  // ----- loading -----

  /** The list as it stands once the entries have been taken one by one. */
  function Loaded(keys: seq<TrustedKey>, entries: seq<Entry>): seq<TrustedKey>
    decreases |entries|
  {
    if entries == [] then keys
    else
      var e := entries[0];
      var parsed := ParseEntry(e);
      Loaded(if e.Dict? && !HasId(keys, EntryId(e)) && parsed.Some? then keys + [parsed.value] else keys, entries[1..])
  }

  predicate HasId(keys: seq<TrustedKey>, id: string) {
    exists i :: 0 <= i < |keys| && keys[i].keyId == id
  }

  predicate DistinctIds(keys: seq<TrustedKey>) {
    forall i, j :: 0 <= i < j < |keys| ==> keys[i].keyId != keys[j].keyId
  }

  /** List and index are two views of the same keys. */
  ghost predicate Indexed(keys: seq<TrustedKey>, byId: map<string, TrustedKey>) {
    && DistinctIds(keys)
    && (forall i :: 0 <= i < |keys| ==> keys[i].keyId in byId && byId[keys[i].keyId] == keys[i])
    && (forall id :: id in byId ==> HasId(keys, id))
  }

  class TrustStore {
    var keys: seq<TrustedKey>
    var byId: map<string, TrustedKey>

    ghost predicate Valid()
      reads this
    {
      Indexed(keys, byId)
    }

    /** The state right after import: the bundled list and its index. */
    constructor ()
      ensures Valid() && keys == BUNDLED
    {
      keys := BUNDLED;
      byId := map["demo-legacy" := DEMO, "commercial-2026" := COMMERCIAL];
      new;
      BundledIndexed(byId);
    }

    /** `entries` is the parsed operator file; a missing or malformed file loads nothing. */
    method LoadOperatorKeys(entries: seq<Entry>) returns (added: nat)
      requires Valid()
      modifies this
      ensures Valid()
      ensures keys == Loaded(old(keys), entries)
      ensures |keys| == |old(keys)| + added
    {
      added := 0;
      for k := 0 to |entries|
        invariant Valid()
        invariant Loaded(old(keys), entries) == Loaded(keys, entries[k..])
        invariant |keys| == |old(keys)| + added
      {
        var e := entries[k];
        assert entries[k..][0] == e && entries[k..][1..] == entries[k + 1..];
        if e.NotADict? {
          continue;
        }
        var keyId := e.keyId.GetOr("");
        assert keyId in byId <==> HasId(keys, keyId);
        if keyId in byId {
          continue;
        }
        var trusted := ParseEntry(e);
        if trusted.Some? {
          AppendKeepsIndex(keys, byId, trusted.value);
          keys := keys + [trusted.value];
          byId := byId[trusted.value.keyId := trusted.value];
          added := added + 1;
        }
      }
    }
  }

  lemma BundledIndexed(byId: map<string, TrustedKey>)
    requires byId == map["demo-legacy" := DEMO, "commercial-2026" := COMMERCIAL]
    ensures Indexed(BUNDLED, byId)
  {
    assert "demo-legacy"[0] != "commercial-2026"[0];
    assert BUNDLED[0].keyId == "demo-legacy" && BUNDLED[1].keyId == "commercial-2026";
  }

  lemma AppendKeepsIndex(keys: seq<TrustedKey>, byId: map<string, TrustedKey>, k: TrustedKey)
    requires Indexed(keys, byId) && k.keyId !in byId
    ensures Indexed(keys + [k], byId[k.keyId := k])
  {
    var after := keys + [k];
    assert after[|keys|] == k;
    forall id | id in byId[k.keyId := k] ensures HasId(after, id) {
      if id != k.keyId {
        var i :| 0 <= i < |keys| && keys[i].keyId == id;
        assert after[i].keyId == id;
      }
    }
  }

  // ----- what loading keeps -----

  /** Loading only appends: bundled keys stay where and what they are, and ids stay distinct. */
  lemma {:induction false} LoadingAppends(keys: seq<TrustedKey>, entries: seq<Entry>)
    ensures keys <= Loaded(keys, entries)
    ensures DistinctIds(keys) ==> DistinctIds(Loaded(keys, entries))
    ensures forall id :: HasId(Loaded(keys, entries), id) ==>
              || HasId(keys, id)
              || exists k :: 0 <= k < |entries| && ParseEntry(entries[k]).Some? && EntryId(entries[k]) == id
    decreases |entries|
  {
    if entries != [] {
      var e := entries[0];
      ParsedKeepsId(e);
      hide ParseEntry;
      var parsed := ParseEntry(e);
      var next := if e.Dict? && !HasId(keys, EntryId(e)) && parsed.Some? then keys + [parsed.value] else keys;
      LoadingAppends(next, entries[1..]);
      forall id | HasId(Loaded(keys, entries), id)
        ensures || HasId(keys, id)
                || exists k :: 0 <= k < |entries| && ParseEntry(entries[k]).Some? && EntryId(entries[k]) == id
      {
        if HasId(next, id) {
          if !HasId(keys, id) {
            assert ParseEntry(entries[0]).Some? && EntryId(entries[0]) == id;
          }
        } else {
          var k :| 0 <= k < |entries[1..]| && ParseEntry(entries[1..][k]).Some? && EntryId(entries[1..][k]) == id;
          assert entries[k + 1] == entries[1..][k];
        }
      }
    }
  }

  lemma ParsedKeepsId(e: Entry)
    ensures ParseEntry(e).Some? ==> e.Dict? && ParseEntry(e).value.keyId == EntryId(e)
  {
  }

  /** Which entries of the file become keys, and which keys they become. */
  lemma EntryIsKeyIff(e: Entry)
    ensures ParseEntry(e).Some?
       <==> && e.Dict? && e.keyId.Some? && e.algorithm.Some? && !e.accepted.NotIterable? && !e.deprecatedAfter.BadDate?
            && (|| (Lower(e.algorithm.value) == "ed25519" && e.hexBytes == Some(32))
                || (Lower(e.algorithm.value) == "rsa" && Trim(e.publicKeyPem) != ""))
    ensures ParseEntry(e).Some? ==>
              var k := ParseEntry(e).value;
              && k.keyId == e.keyId.value && (k.isEd25519 <==> Lower(e.algorithm.value) == "ed25519")
              && k.material == (if k.isEd25519 then e.publicKeyHex else Trim(e.publicKeyPem) + "\n")
              && (!k.isEd25519 ==> k.rsaPadding == e.rsaPadding.GetOr("pkcs1v15"))
              && (!k.isEd25519 ==> k.rsaHash == e.rsaHash.GetOr("sha256"))
              && k.description == e.description.GetOr(k.keyId)
              && k.deprecatedAfter == if e.deprecatedAfter.OnDay? then Some(e.deprecatedAfter.day) else None
  {
    hide Trim, Lower, Chars;
  }

  /** Every well-formed entry ends up trusted under its id, by the first key that claimed the id. */
  lemma {:induction false} EveryGoodEntryIsTrusted(keys: seq<TrustedKey>, entries: seq<Entry>, k: nat)
    requires k < |entries| && ParseEntry(entries[k]).Some?
    ensures HasId(Loaded(keys, entries), EntryId(entries[k]))
    decreases |entries|
  {
    var e := entries[0];
    ParsedKeepsId(e);
    ParsedKeepsId(entries[k]);
    hide ParseEntry;
    var parsed := ParseEntry(e);
    var next := if e.Dict? && !HasId(keys, EntryId(e)) && parsed.Some? then keys + [parsed.value] else keys;
    if k == 0 {
      if parsed.Some? && next == keys + [parsed.value] {
        assert next[|keys|].keyId == EntryId(e);
      }
      assert HasId(next, EntryId(e));
      LoadingAppends(next, entries[1..]);
      var i :| 0 <= i < |next| && next[i].keyId == EntryId(e);
      assert Loaded(next, entries[1..])[i] == next[i];
    } else {
      EveryGoodEntryIsTrusted(next, entries[1..], k - 1);
    }
  }

  lemma {:induction false} NothingToLoad(keys: seq<TrustedKey>, entries: seq<Entry>)
    requires forall k :: 0 <= k < |entries| && ParseEntry(entries[k]).Some? ==> HasId(keys, EntryId(entries[k]))
    ensures Loaded(keys, entries) == keys
    decreases |entries|
  {
    if entries != [] {
      hide ParseEntry;
      forall k | 0 <= k < |entries[1..]| && ParseEntry(entries[1..][k]).Some?
        ensures HasId(keys, EntryId(entries[1..][k]))
      {
        assert entries[1..][k] == entries[k + 1];
      }
      NothingToLoad(keys, entries[1..]);
    }
  }

  /** Loading the same file again changes nothing. */
  lemma LoadingTwiceIsOnce(keys: seq<TrustedKey>, entries: seq<Entry>)
    ensures Loaded(Loaded(keys, entries), entries) == Loaded(keys, entries)
  {
    hide ParseEntry, Loaded;
    forall k | 0 <= k < |entries| && ParseEntry(entries[k]).Some?
      ensures HasId(Loaded(keys, entries), EntryId(entries[k]))
    {
      EveryGoodEntryIsTrusted(keys, entries, k);
    }
    NothingToLoad(Loaded(keys, entries), entries);
  }

  // ----- verification -----

  /** A payload's `type`: absent, text, a number or the like, or a list or object, which no set can be asked for. */
  datatype TypeField = Absent | Text(value: string) | Scalar | Compound
  /** The fields of a payload the verifier reads, and the canonical bytes that were signed. */
  datatype Payload = Payload(keyId: Option<string>, licenseType: TypeField, message: string)
  /** `Raised` is an exception in place of an answer. */
  datatype Verdict =
    | Verified(key: TrustedKey) | UnknownKey | BadSignature(key: TrustedKey) | TypeRefused(key: TrustedKey)
    | NoneVerified(tried: seq<string>) | Raised

  type Attempt = (TrustedKey, string, string) -> bool

  /** The accepted types are texts; an absent type stands for "demo". */
  predicate Accepts(k: TrustedKey, p: Payload) {
    match p.licenseType
    case Absent => "demo" in k.accepts
    case Text(value) => value in k.accepts
    case Scalar => false
    case Compound => false
  }

  /**
    What a key from the operator file may vouch for: the types its entry lists, one that names no type
    counting as "demo"; an entry that lists none stands for demo licenses alone.
   */
  lemma EntryVouchesFor(e: Entry, p: Payload)
    requires ParseEntry(e).Some?
    ensures Accepts(ParseEntry(e).value, p)
       <==> var name := if p.licenseType.Absent? then Some("demo")
                        else if p.licenseType.Text? then Some(p.licenseType.value) else None;
            match e.accepted
            case NotGiven => name == Some("demo")
            case Listed(types) => name.Some? && name.value in types
            case BareText(text) => name.Some? && |name.value| == 1 && name.value[0] in text
            case NotIterable => false
  {
    hide Trim, Lower;
    if e.accepted.BareText? {
      CharsAre(e.accepted.text, "demo");
      if p.licenseType.Text? {
        CharsAre(e.accepted.text, p.licenseType.value);
      }
      hide Chars;
    }
  }

  lemma CharsAre(text: string, v: string)
    ensures v in Chars(text) <==> |v| == 1 && v[0] in text
  {
    if |v| == 1 && v[0] in text {
      var i :| 0 <= i < |text| && text[i] == v[0];
      assert [text[i]] == v;
    }
  }

  /** A key that may and does vouch for the payload. */
  predicate Vouches(k: TrustedKey, p: Payload, signature: string, attempt: Attempt) {
    Accepts(k, p) && attempt(k, p.message, signature)
  }

  /** The ids of the candidates, in list order. */
  function CandidateIds(keys: seq<TrustedKey>, p: Payload): seq<string> {
    if keys == [] then []
    else (if Accepts(keys[0], p) then [keys[0].keyId] else []) + CandidateIds(keys[1..], p)
  }

  /**
    `verify_license_payload`.  With a key id only that key counts, and there is no fallback; without one
    the first key in list order that vouches wins.  It answers unless the type is a list or object that some
    key's accepted types are asked for: with a key id after a good signature, without one before any.
   */
  method VerifyLicense(keys: seq<TrustedKey>, byId: map<string, TrustedKey>, p: Payload, signature: string,
                       attempt: Attempt)
    returns (r: Verdict)
    ensures r.Raised? <==>
              && p.licenseType.Compound?
              && (match p.keyId
                  case Some(id) => id in byId && attempt(byId[id], p.message, signature)
                  case None => keys != [])
    ensures p.keyId.Some? ==>
              (r.Verified? <==> p.keyId.value in byId && Vouches(byId[p.keyId.value], p, signature, attempt))
    ensures p.keyId.Some? && r.Verified? ==> r.key == byId[p.keyId.value]
    ensures p.keyId.Some? && p.keyId.value !in byId ==> r == UnknownKey
    ensures p.keyId.Some? && p.keyId.value in byId && !r.Verified? && !r.Raised? ==>
              r == if attempt(byId[p.keyId.value], p.message, signature)
                   then TypeRefused(byId[p.keyId.value])
                   else BadSignature(byId[p.keyId.value])
    ensures p.keyId.None? && !r.Raised? ==> r == Fallback(keys, p, signature, attempt, [])
  {
    if p.keyId.Some? {
      if p.keyId.value !in byId {
        return UnknownKey;
      }
      var key := byId[p.keyId.value];
      if !attempt(key, p.message, signature) {
        return BadSignature(key);
      }
      if p.licenseType.Compound? {
        return Raised;
      }
      if !Accepts(key, p) {
        return TypeRefused(key);
      }
      return Verified(key);
    }
    if p.licenseType.Compound? && keys != [] {
      return Raised;
    }
    var tried: seq<string> := [];
    for k := 0 to |keys|
      invariant Fallback(keys, p, signature, attempt, []) == Fallback(keys[k..], p, signature, attempt, tried)
    {
      assert keys[k..][1..] == keys[k + 1..];
      if !Accepts(keys[k], p) {
        continue;
      }
      if attempt(keys[k], p.message, signature) {
        return Verified(keys[k]);
      }
      tried := tried + [keys[k].keyId];
    }
    r := NoneVerified(tried);
  }

  function Fallback(keys: seq<TrustedKey>, p: Payload, signature: string, attempt: Attempt,
                    tried: seq<string>): Verdict {
    if keys == [] then NoneVerified(tried)
    else if !Accepts(keys[0], p) then Fallback(keys[1..], p, signature, attempt, tried)
    else if attempt(keys[0], p.message, signature) then Verified(keys[0])
    else Fallback(keys[1..], p, signature, attempt, tried + [keys[0].keyId])
  }

  /**
    The fallback verifies exactly when some trusted key accepts the type and checks the signature, and
    then by the first such key; otherwise it reports every candidate it tried.
   */
  lemma {:induction false} FallbackFindsFirst(keys: seq<TrustedKey>, p: Payload, signature: string,
                                              attempt: Attempt, tried: seq<string>)
    ensures var r := Fallback(keys, p, signature, attempt, tried);
            && (r.Verified? <==> exists i :: 0 <= i < |keys| && Vouches(keys[i], p, signature, attempt))
            && (r.Verified? ==>
                  exists i :: 0 <= i < |keys| && r.key == keys[i] && Vouches(keys[i], p, signature, attempt)
                                            && forall j :: 0 <= j < i ==> !Vouches(keys[j], p, signature, attempt))
            && (!r.Verified? ==> r == NoneVerified(tried + CandidateIds(keys, p)))
  {
    if keys != [] {
      var next := if Accepts(keys[0], p) then tried + [keys[0].keyId] else tried;
      var rest := keys[1..];
      FallbackFindsFirst(rest, p, signature, attempt, next);
      if !Vouches(keys[0], p, signature, attempt) {
        var r := Fallback(rest, p, signature, attempt, next);
        assert forall i :: 0 <= i < |rest| ==> rest[i] == keys[i + 1];
        if r.Verified? {
          var i :| 0 <= i < |rest| && r.key == rest[i] && Vouches(rest[i], p, signature, attempt)
                   && forall j :: 0 <= j < i ==> !Vouches(rest[j], p, signature, attempt);
          assert keys[i + 1] == r.key;
          assert forall j :: 0 <= j < i + 1 ==> !Vouches(keys[j], p, signature, attempt) by {
            forall j | 0 <= j < i + 1 ensures !Vouches(keys[j], p, signature, attempt) {
              if j > 0 {
                assert rest[j - 1] == keys[j];
              }
            }
          }
        }
        if i :| 0 <= i < |keys| && Vouches(keys[i], p, signature, attempt) {
          assert rest[i - 1] == keys[i];
        }
      }
    }
  }

  lemma {:induction false} FallbackPrefix(keys: seq<TrustedKey>, more: seq<TrustedKey>, p: Payload,
                                          signature: string, attempt: Attempt, tried: seq<string>)
    requires Fallback(keys, p, signature, attempt, tried).Verified?
    ensures Fallback(keys + more, p, signature, attempt, tried) == Fallback(keys, p, signature, attempt, tried)
  {
    assert (keys + more)[0] == keys[0] && (keys + more)[1..] == keys[1..] + more;
    if !Accepts(keys[0], p) {
      FallbackPrefix(keys[1..], more, p, signature, attempt, tried);
    } else if !attempt(keys[0], p.message, signature) {
      FallbackPrefix(keys[1..], more, p, signature, attempt, tried + [keys[0].keyId]);
    }
  }

  /** The verifier as a function of the trust list alone. */
  function VerifyingKey(keys: seq<TrustedKey>, p: Payload, signature: string, attempt: Attempt): Option<TrustedKey> {
    match p.keyId
    case None =>
      (match Fallback(keys, p, signature, attempt, [])
       case Verified(k) => Some(k)
       case _ => None)
    case Some(id) => RoutedKey(keys, id, p, signature, attempt)
  }

  function RoutedKey(keys: seq<TrustedKey>, id: string, p: Payload, signature: string,
                     attempt: Attempt): Option<TrustedKey> {
    if keys == [] then None
    else if keys[0].keyId == id then (if Vouches(keys[0], p, signature, attempt) then Some(keys[0]) else None)
    else RoutedKey(keys[1..], id, p, signature, attempt)
  }

  lemma {:induction false} RoutedPrefix(keys: seq<TrustedKey>, more: seq<TrustedKey>, id: string, p: Payload,
                                        signature: string, attempt: Attempt)
    requires RoutedKey(keys, id, p, signature, attempt).Some?
    ensures RoutedKey(keys + more, id, p, signature, attempt) == RoutedKey(keys, id, p, signature, attempt)
  {
    assert (keys + more)[0] == keys[0] && (keys + more)[1..] == keys[1..] + more;
    if keys[0].keyId != id {
      RoutedPrefix(keys[1..], more, id, p, signature, attempt);
    }
  }

  /** The index finds what a walk of the list would: the verifier needs only one of the two to be right. */
  lemma {:induction false} IndexMatchesList(keys: seq<TrustedKey>, byId: map<string, TrustedKey>, id: string,
                                            p: Payload, signature: string, attempt: Attempt)
    requires DistinctIds(keys)
    requires forall i :: 0 <= i < |keys| ==> keys[i].keyId in byId && byId[keys[i].keyId] == keys[i]
    requires id in byId ==> HasId(keys, id)
    ensures RoutedKey(keys, id, p, signature, attempt)
         == if id in byId && Vouches(byId[id], p, signature, attempt) then Some(byId[id]) else None
  {
    hide Vouches;
    if keys != [] && keys[0].keyId != id {
      if id in byId {
        var i :| 0 <= i < |keys| && keys[i].keyId == id;
        assert keys[1..][i - 1].keyId == id;
      }
      IndexMatchesList(keys[1..], byId, id, p, signature, attempt);
    }
  }

  /**
    Loading operator keys is monotone: whatever payload was verified before is verified after, by the
    same key, on both paths; and no operator entry can change what a bundled id vouches for.
   */
  lemma LoadingIsMonotone(keys: seq<TrustedKey>, entries: seq<Entry>, p: Payload, signature: string, attempt: Attempt)
    requires VerifyingKey(keys, p, signature, attempt).Some?
    ensures VerifyingKey(Loaded(keys, entries), p, signature, attempt) == VerifyingKey(keys, p, signature, attempt)
  {
    LoadingAppends(keys, entries);
    hide Loaded, Vouches;
    var after := Loaded(keys, entries);
    assert after == keys + after[|keys|..];
    match p.keyId
    case None => FallbackPrefix(keys, after[|keys|..], p, signature, attempt, []);
    case Some(id) => RoutedPrefix(keys, after[|keys|..], id, p, signature, attempt);
  }

  /** Without an operator file each bundled key speaks for its own kind of license, on both paths. */
  lemma BundledKeysSplitTypes(p: Payload, signature: string, attempt: Attempt)
    ensures var k := VerifyingKey(BUNDLED, p, signature, attempt);
            && (k.Some? ==> k.value.keyId in {"demo-legacy", "commercial-2026"})
            && (k.Some? && k.value.keyId == "commercial-2026" ==> p.licenseType == Text("commercial"))
            && (k.Some? && k.value.keyId == "demo-legacy" ==> p.licenseType == Absent || p.licenseType == Text("demo"))
  {
    assert BUNDLED[0] == DEMO && BUNDLED[1..] == [COMMERCIAL] && [COMMERCIAL][1..] == [];
    assert "demo-legacy"[0] != "commercial-2026"[0] && "demo"[0] != "commercial"[0];
    assert Accepts(DEMO, p) ==> p.licenseType == Absent || p.licenseType == Text("demo");
    assert Accepts(COMMERCIAL, p) ==> p.licenseType == Text("commercial");
    hide Accepts;
    match p.keyId
    case None =>
      FallbackFindsFirst(BUNDLED, p, signature, attempt, []);
    case Some(id) =>
      assert RoutedKey([], id, p, signature, attempt) == None;
      assert RoutedKey([COMMERCIAL], id, p, signature, attempt).Some? ==> Accepts(COMMERCIAL, p);
  }

  lemma {:induction false} RoutedPrefixAny(keys: seq<TrustedKey>, more: seq<TrustedKey>, id: string,
                                           p: Payload, signature: string, attempt: Attempt)
    requires HasId(keys, id)
    ensures RoutedKey(keys + more, id, p, signature, attempt) == RoutedKey(keys, id, p, signature, attempt)
  {
    var i :| 0 <= i < |keys| && keys[i].keyId == id;
    assert (keys + more)[0] == keys[0] && (keys + more)[1..] == keys[1..] + more;
    if keys[0].keyId != id {
      assert keys[1..][i - 1].keyId == id;
      RoutedPrefixAny(keys[1..], more, id, p, signature, attempt);
    }
  }

  /** For an id already in the list the verdict, good or bad, does not depend on the operator file. */
  lemma KnownIdsAreSettled(keys: seq<TrustedKey>, entries: seq<Entry>, p: Payload, signature: string, attempt: Attempt)
    requires p.keyId.Some? && HasId(keys, p.keyId.value)
    ensures VerifyingKey(Loaded(keys, entries), p, signature, attempt) == VerifyingKey(keys, p, signature, attempt)
  {
    LoadingAppends(keys, entries);
    hide Loaded, Vouches;
    var after := Loaded(keys, entries);
    assert after == keys + after[|keys|..];
    RoutedPrefixAny(keys, after[|keys|..], p.keyId.value, p, signature, attempt);
  }
}
