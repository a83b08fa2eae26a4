/** The key builders, and why records of different kinds or tokens never share a key. */
module RedisKeys {
  function SecretPayloadKey(tokenHash: string): string {
    "secret:payload:" + tokenHash
  }

  function SecretMetadataKey(tokenHash: string): string {
    "secret:meta:" + tokenHash
  }

  function RevealSessionKey(sessionID: string): string {
    "reveal:session:" + sessionID
  }

  function RateLimitKey(bucket: string): string {
    "ratelimit:" + bucket
  }

  lemma PrefixInjective(prefix: string, a: string, b: string)
    ensures prefix + a == prefix + b <==> a == b
  {
    if prefix + a == prefix + b {
      assert a == (prefix + a)[|prefix|..] == (prefix + b)[|prefix|..] == b;
    }
  }

  /** Each builder is injective, and no two builders meet: one keyspace is as good as four. */
  lemma KeyspacesDisjoint(a: string, b: string)
    ensures SecretPayloadKey(a) == SecretPayloadKey(b) <==> a == b
    ensures SecretMetadataKey(a) == SecretMetadataKey(b) <==> a == b
    ensures RevealSessionKey(a) == RevealSessionKey(b) <==> a == b
    ensures RateLimitKey(a) == RateLimitKey(b) <==> a == b
    ensures SecretPayloadKey(a) != SecretMetadataKey(b)
    ensures SecretPayloadKey(a) != RevealSessionKey(b) && SecretPayloadKey(a) != RateLimitKey(b)
    ensures SecretMetadataKey(a) != RevealSessionKey(b) && SecretMetadataKey(a) != RateLimitKey(b)
    ensures RevealSessionKey(a) != RateLimitKey(b)
  {
    PrefixInjective("secret:payload:", a, b);
    PrefixInjective("secret:meta:", a, b);
    PrefixInjective("reveal:session:", a, b);
    PrefixInjective("ratelimit:", a, b);
    assert SecretPayloadKey(a)[7] == 'p' && SecretMetadataKey(b)[7] == 'm';
    assert SecretPayloadKey(a)[0] == 's' && SecretMetadataKey(a)[0] == 's';
    assert RevealSessionKey(a)[1] == 'e' && RateLimitKey(b)[1] == 'a';
    assert RevealSessionKey(b)[0] == 'r' && RateLimitKey(b)[0] == 'r';
  }
}
