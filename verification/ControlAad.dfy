/**
 The additional authenticated data of a control envelope. An agent id may hold any character, the separator included;
 request and key ids may not, so the string can be read back from its right end.
 */
module ControlAad {
  import opened Basics
  import opened Identifiers

  const PREFIX := "echoear-control-v2|"
  const MIDDLE := "|hapi_connection||"

  function Aad(agentId: string, requestId: string, keyId: string): string {
    PREFIX + agentId + MIDDLE + requestId + "|" + keyId
  }

  datatype Triple = Triple(agentId: string, requestId: string, keyId: string)

  // What follows the last separator, and what precedes it.
  function LastField(s: string): (r: Option<(string, string)>)
    ensures r.Some? ==> s == r.value.0 + "|" + r.value.1 && '|' !in r.value.1
    ensures r.None? ==> '|' !in s
  {
    if s == "" then None
    else if s[|s| - 1] == '|' then Some((s[..|s| - 1], ""))
    else
      var front := LastField(s[..|s| - 1]);
      if front.None? then None else Some((front.value.0, front.value.1 + [s[|s| - 1]]))
  }

  // Reads the fields off the right end: the key, the request, an empty field, the operation, and the rest.
  function Parse(s: string): Option<Triple> {
    var key := LastField(s);
    if key.None? then None
    else
      var request := LastField(key.value.0);
      if request.None? then None
      else
        var head := request.value.0 + "|";
        if |head| < |PREFIX| + |MIDDLE| || head[..|PREFIX|] != PREFIX || head[|head| - |MIDDLE|..] != MIDDLE then None
        else Some(Triple(head[|PREFIX|..|head| - |MIDDLE|], request.value.1, key.value.1))
  }

  lemma {:induction false} LastFieldOf(before: string, field: string)
    requires '|' !in field
    ensures LastField(before + "|" + field) == Some((before, field))
  {
    var s := before + "|" + field;
    if field == "" {
      assert s[..|s| - 1] == before;
    } else {
      var last := |field| - 1;
      assert s[|s| - 1] == field[last] && field[last] in field;
      assert s[..|s| - 1] == before + "|" + field[..last];
      LastFieldOf(before, field[..last]);
      assert field[..last] + [field[last]] == field;
    }
  }

  lemma NoSeparator(id: string, min: nat, max: nat)
    requires ValidIdentifier(id, min, max)
    ensures '|' !in id
  {
    assert forall i :: 0 <= i < |id| ==> IdentifierChar(id[i]) && id[i] != '|';
  }

  // Parsing recovers the agent id whatever it holds.
  lemma ParseAad(agentId: string, requestId: string, keyId: string)
    requires ValidIdentifier(requestId, 8, 128) && ValidIdentifier(keyId, 8, 128)
    ensures Parse(Aad(agentId, requestId, keyId)) == Some(Triple(agentId, requestId, keyId))
  {
    NoSeparator(requestId, 8, 128);
    NoSeparator(keyId, 8, 128);
    var before := PREFIX + agentId + "|hapi_connection|";
    var s := Aad(agentId, requestId, keyId);
    assert s == (before + "|" + requestId) + "|" + keyId;
    LastFieldOf(before + "|" + requestId, keyId);
    LastFieldOf(before, requestId);
    var head := before + "|";
    assert head == PREFIX + agentId + MIDDLE;
    assert head[|PREFIX|..|head| - |MIDDLE|] == agentId;
  }

  // ----- envelopes -----

  const ALGORITHM := "RSA-OAEP-256+A256GCM"
  const CIPHERTEXT_MAX := 16 * 1024

  // Nonce and ciphertext are given by the length of their decoding, None when they do not decode.
  datatype Envelope = Envelope(version: int, operation: string, requestId: string, algorithm: string, keyId: string,
                               encryptedKey: string, nonce: Option<nat>, ciphertext: Option<nat>, aad: string)

  // The agent's row, as far as envelopes are checked against it.
  datatype AgentKey = AgentKey(agentId: string, keyId: string, algorithm: string, publicKey: string)

  datatype Verdict = Fine | BadVersion | KeyMismatch | BadAad | BadKey | BadNonce | BadCiphertext

  function ValidateEnvelope(e: Envelope, agent: AgentKey, requestId: string): Verdict {
    if e.version != 2 || e.operation != "hapi_connection" || e.algorithm != ALGORITHM then BadVersion
    else if e.requestId != requestId || e.keyId == "" || e.keyId != agent.keyId || agent.algorithm != ALGORITHM ||
            agent.publicKey == "" then KeyMismatch
    else if e.aad != Aad(agent.agentId, requestId, e.keyId) then BadAad
    else if |e.encryptedKey| < 32 || |e.encryptedKey| > 2048 then BadKey
    else if e.nonce != Some(12) then BadNonce
    else if e.ciphertext.None? || e.ciphertext.value < 17 || e.ciphertext.value > CIPHERTEXT_MAX then BadCiphertext
    else Fine
  }

  // A key id is stored only with a key, an algorithm and the form of an identifier.
  predicate RegisteredKey(agent: AgentKey) { agent.keyId != "" ==> ValidIdentifier(agent.keyId, 8, 128) }

  // Two envelopes with the same authenticated data that are both accepted were accepted for one agent, request and key.
  lemma AcceptedForOneTriple(e: Envelope, agent: AgentKey, requestId: string, f: Envelope, other: AgentKey,
                             requestId': string)
    requires ValidateEnvelope(e, agent, requestId) == Fine && ValidateEnvelope(f, other, requestId') == Fine
    requires ValidIdentifier(requestId, 8, 128) && ValidIdentifier(requestId', 8, 128)
    requires RegisteredKey(agent) && RegisteredKey(other) && e.aad == f.aad
    ensures agent.agentId == other.agentId && requestId == requestId' && e.keyId == f.keyId
  {
    ParseAad(agent.agentId, requestId, e.keyId);
    ParseAad(other.agentId, requestId', f.keyId);
  }

  // What an envelope needs to be accepted for an agent and a request.
  lemma AcceptedIff(e: Envelope, agent: AgentKey, requestId: string)
    ensures ValidateEnvelope(e, agent, requestId) == Fine <==>
            && e.version == 2 && e.operation == "hapi_connection" && e.requestId == requestId
            && e.algorithm == "RSA-OAEP-256+A256GCM" == agent.algorithm
            && |e.keyId| > 0 && e.keyId == agent.keyId && |agent.publicKey| > 0
            && e.aad == "echoear-control-v2|" + agent.agentId + "|hapi_connection||" + requestId + "|" + e.keyId
            && 32 <= |e.encryptedKey| <= 2048 && e.nonce == Some(12)
            && exists n :: e.ciphertext == Some(n) && 17 <= n <= 16384
  {
    assert ALGORITHM == "RSA-OAEP-256+A256GCM";
  }
}
