/** The rotate-encryption-key command (cmd/server/main.go). The cipher is abstract: a
    box encrypts under a nonce of its choice, and the one law used is that it decrypts
    what it encrypted (internal/crypto). */
module KeyRotation {
  import opened Common

  datatype Box = Box(decrypt: string -> Option<string>, encrypt: (string, nat) -> Option<string>)

  /** unicode.IsSpace. */
  predicate IsSpace(c: char) {
    || '\t' <= c <= '\r' || c == ' ' || c == '\U{85}' || c == '\U{A0}' || c == '\U{1680}'
    || '\U{2000}' <= c <= '\U{200A}' || c == '\U{2028}' || c == '\U{2029}' || c == '\U{202F}'
    || c == '\U{205F}' || c == '\U{3000}'
  }

  predicate IsBlank(s: string) {
    forall i :: 0 <= i < |s| ==> IsSpace(s[i])
  }

  /** A value of only these characters holds no secret; one with any other character does. */
  lemma BlankMeans(s: string)
    ensures IsBlank(s) <==>
            forall i :: 0 <= i < |s| ==>
              || s[i] in {'\t', '\n', '\U{0B}', '\U{0C}', '\r', ' ', '\U{85}', '\U{A0}', '\U{1680}', '\U{2028}', '\U{2029}'}
              || '\U{2000}' <= s[i] <= '\U{200A}' || s[i] in {'\U{202F}', '\U{205F}', '\U{3000}'}
  {
  }

  /** A box reads back what it wrote, and what it writes is never blank (base64 of a nonce and more). */
  ghost predicate Sound(box: Box) {
    forall plain, nonce :: box.encrypt(plain, nonce).Some? ==>
      && box.decrypt(box.encrypt(plain, nonce).value) == Some(plain)
      && !IsBlank(box.encrypt(plain, nonce).value)
  }

  predicate IsSecret(value: Option<string>) {
    value.Some? && !IsBlank(value.value)
  }

  predicate Readable(value: Option<string>, box: Box) {
    IsSecret(value) ==> box.decrypt(value.value).Some?
  }

  /** A secret now reads under the new key as it did under the old one; anything else is as it was. */
  predicate Rekeyed(before: Option<string>, after: Option<string>, oldBox: Box, newBox: Box) {
    if IsSecret(before)
    then IsSecret(after) && oldBox.decrypt(before.value).Some?
         && newBox.decrypt(after.value) == oldBox.decrypt(before.value)
    else after == before
  }

  datatype Header = Header(name: string, valuePlain: Option<string>, valueEncrypted: Option<string>,
                           sensitive: bool, masked: bool)

  datatype Settings = Settings(telegramToken: Option<string>, proxyPassword: Option<string>)

  // `headers` is the stored JSON: None when it does not parse.
  datatype Endpoint = Endpoint(headers: Option<seq<Header>>, proxyPassword: Option<string>)

  function SecretCount(value: Option<string>): nat {
    if IsSecret(value) then 1 else 0
  }

  function HeaderSecrets(headers: seq<Header>): nat {
    if headers == [] then 0
    else HeaderSecrets(headers[..|headers| - 1]) + SecretCount(headers[|headers| - 1].valueEncrypted)
  }

  function EndpointSecrets(endpoints: seq<Endpoint>): nat {
    if endpoints == [] then 0
    else
      var last := endpoints[|endpoints| - 1];
      EndpointSecrets(endpoints[..|endpoints| - 1]) + SecretCount(last.proxyPassword)
      + (if last.headers.Some? then HeaderSecrets(last.headers.value) else 0)
  }

  predicate HeaderRekeyed(before: Header, after: Header, oldBox: Box, newBox: Box) {
    && Rekeyed(before.valueEncrypted, after.valueEncrypted, oldBox, newBox)
    && after == before.(valueEncrypted := after.valueEncrypted)
  }

  predicate HeadersRekeyed(before: seq<Header>, after: seq<Header>, oldBox: Box, newBox: Box) {
    |after| == |before| && forall i :: 0 <= i < |before| ==> HeaderRekeyed(before[i], after[i], oldBox, newBox)
  }

  predicate EndpointRekeyed(before: Endpoint, after: Endpoint, oldBox: Box, newBox: Box) {
    && Rekeyed(before.proxyPassword, after.proxyPassword, oldBox, newBox)
    && before.headers.Some? && after.headers.Some?
    && HeadersRekeyed(before.headers.value, after.headers.value, oldBox, newBox)
  }

  predicate EndpointsRekeyed(before: seq<Endpoint>, after: seq<Endpoint>, oldBox: Box, newBox: Box) {
    |after| == |before| && forall i :: 0 <= i < |before| ==> EndpointRekeyed(before[i], after[i], oldBox, newBox)
  }

  predicate HeadersReadable(headers: seq<Header>, box: Box) {
    forall i :: 0 <= i < |headers| ==> Readable(headers[i].valueEncrypted, box)
  }

  predicate EndpointReadable(e: Endpoint, box: Box) {
    Readable(e.proxyPassword, box) && e.headers.Some? && HeadersReadable(e.headers.value, box)
  }

  ghost predicate Encrypts(box: Box) {
    forall plain, nonce :: box.encrypt(plain, nonce).Some?
  }

  method ReencryptString(value: Option<string>, oldBox: Box, newBox: Box, nonce: nat)
    returns (r: Option<(Option<string>, nat)>)
    requires Sound(newBox)
    ensures r.Some? ==> Rekeyed(value, r.value.0, oldBox, newBox) && r.value.1 == SecretCount(value)
    ensures r.Some? ==> r.value.1 == if value.Some? && !IsBlank(value.value) then 1 else 0
    ensures r.Some? ==> Readable(value, oldBox)
    ensures Readable(value, oldBox) && Encrypts(newBox) ==> r.Some?
  {
    if value.None? || IsBlank(value.value) {
      return Some((value, 0));
    }
    var plain := oldBox.decrypt(value.value);
    if plain.None? {
      return None;
    }
    var encrypted := newBox.encrypt(plain.value, nonce);
    if encrypted.None? {
      return None;
    }
    r := Some((encrypted, 1));
  }

  /** The first `n` headers are done, the others still as stored. */
  predicate HeadersDone(before: seq<Header>, after: seq<Header>, n: nat, oldBox: Box, newBox: Box) {
    && |after| == |before| && n <= |before|
    && (forall i :: 0 <= i < n ==> HeaderRekeyed(before[i], after[i], oldBox, newBox))
    && (forall i :: n <= i < |before| ==> after[i] == before[i])
  }

  lemma HeaderSecretsGrow(headers: seq<Header>, n: nat)
    requires n < |headers|
    ensures HeaderSecrets(headers[..n + 1]) == HeaderSecrets(headers[..n]) + SecretCount(headers[n].valueEncrypted)
  {
    assert headers[..n + 1][..n] == headers[..n];
  }

  method ReencryptHeaders(raw: Option<seq<Header>>, oldBox: Box, newBox: Box, nonce: nat)
    returns (r: Option<(seq<Header>, nat)>)
    requires Sound(newBox)
    ensures r.Some? ==> && raw.Some? && HeadersRekeyed(raw.value, r.value.0, oldBox, newBox)
                        && r.value.1 == HeaderSecrets(raw.value) && HeadersReadable(raw.value, oldBox)
    ensures raw.Some? && HeadersReadable(raw.value, oldBox) && Encrypts(newBox) ==> r.Some?
  {
    if raw.None? {
      return None;
    }
    var headers, rotated := raw.value, 0;
    for i := 0 to |headers|
      invariant HeadersDone(raw.value, headers, i, oldBox, newBox)
      invariant forall k :: 0 <= k < i ==> Readable(raw.value[k].valueEncrypted, oldBox)
      invariant rotated == HeaderSecrets(raw.value[..i])
    {
      var encrypted := ReencryptString(headers[i].valueEncrypted, oldBox, newBox, nonce + i);
      if encrypted.None? {
        return None;
      }
      HeaderSecretsGrow(raw.value, i);
      headers := headers[i := headers[i].(valueEncrypted := encrypted.value.0)];
      rotated := rotated + encrypted.value.1;
    }
    assert raw.value[..|headers|] == raw.value;
    r := Some((headers, rotated));
  }

  class Secrets {
    var settings: Settings
    var endpoints: seq<Endpoint>

    predicate AllReadable(box: Box)
      reads this
    {
      && Readable(settings.telegramToken, box) && Readable(settings.proxyPassword, box)
      && forall i :: 0 <= i < |endpoints| ==> EndpointReadable(endpoints[i], box)
    }

    function Count(): nat
      reads this
    {
      SecretCount(settings.telegramToken) + SecretCount(settings.proxyPassword) + EndpointSecrets(endpoints)
    }

    /** The endpoint loop, on the transaction's copy of the rows. */
    method RotateEndpoints(oldBox: Box, newBox: Box) returns (r: Option<(seq<Endpoint>, nat)>)
      requires Sound(newBox)
      ensures r.Some? ==> && EndpointsRekeyed(endpoints, r.value.0, oldBox, newBox)
                          && r.value.1 == EndpointSecrets(endpoints)
                          && forall i :: 0 <= i < |endpoints| ==> EndpointReadable(endpoints[i], oldBox)
      ensures (forall i :: 0 <= i < |endpoints| ==> EndpointReadable(endpoints[i], oldBox)) && Encrypts(newBox) ==> r.Some?
    {
      var updated: seq<Endpoint>, rotated := [], 0;
      for i := 0 to |endpoints|
        invariant EndpointsRekeyed(endpoints[..i], updated, oldBox, newBox)
        invariant forall j :: 0 <= j < i ==> EndpointReadable(endpoints[j], oldBox)
        invariant rotated == EndpointSecrets(endpoints[..i])
      {
        var proxyPassword := ReencryptString(endpoints[i].proxyPassword, oldBox, newBox, rotated);
        if proxyPassword.None? {
          return None;
        }
        var headers := ReencryptHeaders(endpoints[i].headers, oldBox, newBox, rotated + 1);
        if headers.None? {
          return None;
        }
        updated := updated + [Endpoint(Some(headers.value.0), proxyPassword.value.0)];
        rotated := rotated + proxyPassword.value.1 + headers.value.1;
        assert endpoints[..i + 1][..i] == endpoints[..i];
      }
      assert endpoints[..|endpoints|] == endpoints;
      r := Some((updated, rotated));
    }

    /** One transaction. `commits` says whether the database accepts it. On success every
        secret has moved to the new key, blank values are untouched and the result counts
        the secrets; on any failure no row changes. It succeeds exactly when it commits
        and every secret can be read, as long as encryption itself does not fail. */
    method Rotate(oldBox: Box, newBox: Box, commits: bool) returns (rotated: Option<nat>)
      requires Sound(newBox)
      modifies this
      ensures rotated.None? ==> settings == old(settings) && endpoints == old(endpoints)
      ensures rotated.Some? ==>
                && commits && old(AllReadable(oldBox))
                && rotated.value == old(Count())
                && Rekeyed(old(settings.telegramToken), settings.telegramToken, oldBox, newBox)
                && Rekeyed(old(settings.proxyPassword), settings.proxyPassword, oldBox, newBox)
                && EndpointsRekeyed(old(endpoints), endpoints, oldBox, newBox)
      ensures Encrypts(newBox) ==> (rotated.Some? <==> commits && old(AllReadable(oldBox)))
    {
      var token := ReencryptString(settings.telegramToken, oldBox, newBox, 0);
      if token.None? {
        return None;
      }
      var proxy := ReencryptString(settings.proxyPassword, oldBox, newBox, 1);
      if proxy.None? {
        return None;
      }
      var rows := RotateEndpoints(oldBox, newBox);
      if rows.None? || !commits {
        return None;
      }
      settings := Settings(token.value.0, proxy.value.0);
      endpoints := rows.value.0;
      rotated := Some(token.value.1 + proxy.value.1 + rows.value.1);
    }
  }

  // All that holds secrets.
  datatype Stored = Stored(settings: Settings, endpoints: seq<Endpoint>)

  predicate AllRekeyed(before: Stored, after: Stored, oldBox: Box, newBox: Box) {
    && Rekeyed(before.settings.telegramToken, after.settings.telegramToken, oldBox, newBox)
    && Rekeyed(before.settings.proxyPassword, after.settings.proxyPassword, oldBox, newBox)
    && EndpointsRekeyed(before.endpoints, after.endpoints, oldBox, newBox)
  }

  lemma HeadersRekeyTwice(before: seq<Header>, between: seq<Header>, after: seq<Header>, a: Box, b: Box, c: Box)
    requires HeadersRekeyed(before, between, a, b) && HeadersRekeyed(between, after, b, c)
    ensures HeadersRekeyed(before, after, a, c)
  {
    forall i | 0 <= i < |before| ensures HeaderRekeyed(before[i], after[i], a, c) {
      assert HeaderRekeyed(before[i], between[i], a, b) && HeaderRekeyed(between[i], after[i], b, c);
    }
  }

  /** Rotations compose, over all tables: what a second rotation reads is what the first
      one was given, so rotating back to the first key restores every plaintext. */
  lemma RekeyTwice(before: Stored, between: Stored, after: Stored, a: Box, b: Box, c: Box)
    requires AllRekeyed(before, between, a, b) && AllRekeyed(between, after, b, c)
    ensures AllRekeyed(before, after, a, c)
  {
    forall i | 0 <= i < |before.endpoints| ensures EndpointRekeyed(before.endpoints[i], after.endpoints[i], a, c) {
      var e0, e1, e2 := before.endpoints[i], between.endpoints[i], after.endpoints[i];
      assert EndpointRekeyed(e0, e1, a, b) && EndpointRekeyed(e1, e2, b, c);
      HeadersRekeyTwice(e0.headers.value, e1.headers.value, e2.headers.value, a, b, c);
    }
  }

  /** There and back: a rotation to a new key, then one to the old key. Both go through
      when the database accepts them and encryption works, and every secret then reads
      under the old key as it did at first. */
  method RotateAndBack(secrets: Secrets, oldBox: Box, newBox: Box) returns (first: Option<nat>, second: Option<nat>)
    requires Sound(oldBox) && Sound(newBox) && Encrypts(oldBox) && Encrypts(newBox)
    requires secrets.AllReadable(oldBox)
    modifies secrets
    ensures first == second == Some(old(secrets.Count()))
    ensures AllRekeyed(old(Stored(secrets.settings, secrets.endpoints)), Stored(secrets.settings, secrets.endpoints), oldBox, oldBox)
  {
    ghost var before := Stored(secrets.settings, secrets.endpoints);
    first := secrets.Rotate(oldBox, newBox, true);
    ghost var between := Stored(secrets.settings, secrets.endpoints);
    RekeyedIsReadable(before.endpoints, between.endpoints, oldBox, newBox);
    second := secrets.Rotate(newBox, oldBox, true);
    RekeyTwice(before, between, Stored(secrets.settings, secrets.endpoints), oldBox, newBox, oldBox);
  }

  /** After a rotation every secret is readable under the new key, so the next rotation finds nothing to reject. */
  lemma RekeyedIsReadable(before: seq<Endpoint>, after: seq<Endpoint>, oldBox: Box, newBox: Box)
    requires EndpointsRekeyed(before, after, oldBox, newBox)
    ensures forall i :: 0 <= i < |after| ==> EndpointReadable(after[i], newBox)
    ensures EndpointSecrets(after) == EndpointSecrets(before)
  {
    forall i | 0 <= i < |after| ensures EndpointReadable(after[i], newBox) {
      assert EndpointRekeyed(before[i], after[i], oldBox, newBox);
    }
    SameCount(before, after, oldBox, newBox);
  }

  lemma {:induction false} SameHeaderCount(before: seq<Header>, after: seq<Header>, oldBox: Box, newBox: Box)
    requires HeadersRekeyed(before, after, oldBox, newBox)
    ensures HeaderSecrets(after) == HeaderSecrets(before)
  {
    if before != [] {
      var last := |before| - 1;
      SameHeaderCount(before[..last], after[..last], oldBox, newBox);
      assert HeaderRekeyed(before[last], after[last], oldBox, newBox);
    }
  }

  lemma {:induction false} SameCount(before: seq<Endpoint>, after: seq<Endpoint>, oldBox: Box, newBox: Box)
    requires EndpointsRekeyed(before, after, oldBox, newBox)
    ensures EndpointSecrets(after) == EndpointSecrets(before)
  {
    if before != [] {
      var last := |before| - 1;
      SameCount(before[..last], after[..last], oldBox, newBox);
      assert EndpointRekeyed(before[last], after[last], oldBox, newBox);
      SameHeaderCount(before[last].headers.value, after[last].headers.value, oldBox, newBox);
    }
  }
}
