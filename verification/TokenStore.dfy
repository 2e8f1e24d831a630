/** The stored credential pair of one account and the two writes that replace it
    (src/storage/accounts.ts: updateTokens and the leased write of upsertFromTokensInternal). */
module TokenStore {
  import opened Wrappers

  datatype Tokens = Tokens(idToken: string, accessToken: string, refreshToken: Option<string>, accountId: Option<string>)

  function OrElse<T>(first: Option<T>, second: Option<T>): Option<T> {
    if first.Some? then first else second
  }

  /** Pairs are compared after filling in the account's own provider id. */
  function Normalized(tokens: Tokens, providerId: Option<string>): Tokens {
    tokens.(accountId := OrElse(tokens.accountId, providerId))
  }

  predicate SamePair(a: Tokens, b: Tokens, providerId: Option<string>) {
    Normalized(a, providerId) == Normalized(b, providerId)
  }

  function CompareAndSet(stored: Option<Tokens>, expected: Option<Tokens>, next: Tokens, follower: bool, providerId: Option<string>)
    : Option<Tokens>
  {
    if expected.Some? && (stored == None || !SamePair(stored.value, expected.value, providerId)) then stored
    else Some(Normalized(next, providerId).(refreshToken := if follower then None else next.refreshToken))
  }

  /** The three tokens are equal, and the account id as well, where the account's own id stands in for one that is not named. */
  predicate Agree(a: Tokens, b: Tokens, providerId: Option<string>) {
    && a.idToken == b.idToken && a.accessToken == b.accessToken && a.refreshToken == b.refreshToken
    && (|| a.accountId == b.accountId
        || (a.accountId == None && b.accountId == providerId)
        || (b.accountId == None && a.accountId == providerId))
  }

  /** The pair as it is kept: a follower never keeps a refresh token, and a pair names an account whenever one is known. */
  predicate KeptAs(kept: Tokens, next: Tokens, follower: bool, providerId: Option<string>) {
    && kept.idToken == next.idToken && kept.accessToken == next.accessToken
    && (follower ==> kept.refreshToken == None) && (!follower ==> kept.refreshToken == next.refreshToken)
    && (next.accountId.Some? ==> kept.accountId == next.accountId) && (next.accountId == None ==> kept.accountId == providerId)
  }

  /** A write stores the pair it brings exactly when nothing is expected or what is stored agrees with what is expected;
      otherwise it leaves the store alone. */
  lemma CompareAndSetStores(stored: Option<Tokens>, expected: Option<Tokens>, next: Tokens, follower: bool, providerId: Option<string>)
    ensures var after := CompareAndSet(stored, expected, next, follower, providerId);
            if expected == None || (stored.Some? && Agree(stored.value, expected.value, providerId))
            then after.Some? && KeptAs(after.value, next, follower, providerId)
            else after == stored
  {
  }

  /** An expected pair that is no longer stored stops the write; one that is stored lets it through. */
  lemma CompareAndSetIsGuarded(stored: Option<Tokens>, expected: Tokens, next: Tokens, follower: bool, providerId: Option<string>)
    requires !follower && next.refreshToken.Some?
    requires stored != Some(Normalized(next, providerId))
    ensures var after := CompareAndSet(stored, Some(expected), next, follower, providerId);
            && (after != stored <==> stored.Some? && SamePair(stored.value, expected, providerId))
            && (after != stored ==> after == Some(Normalized(next, providerId)))
  {
  }

  /** Writes one after the other that all expect the same pair. */
  function WriteAll(stored: Option<Tokens>, expected: Tokens, writes: seq<Tokens>, follower: bool, providerId: Option<string>): Option<Tokens> {
    if writes == [] then stored
    else
      CompareAndSet(WriteAll(stored, expected, writes[..|writes| - 1], follower, providerId), Some(expected),
                    writes[|writes| - 1], follower, providerId)
  }

  /** Of any number of writers that started from the stored pair, only the first one is stored, as long as it brings
      another pair. */
  lemma {:induction false} FirstWriteWins(stored: Tokens, expected: Tokens, writes: seq<Tokens>, follower: bool, providerId: Option<string>)
    requires writes != [] && SamePair(stored, expected, providerId)
    requires var first := CompareAndSet(Some(stored), Some(expected), writes[0], follower, providerId);
             !SamePair(first.value, expected, providerId)
    ensures WriteAll(Some(stored), expected, writes, follower, providerId)
         == CompareAndSet(Some(stored), Some(expected), writes[0], follower, providerId)
    decreases |writes|
  {
    var init := writes[..|writes| - 1];
    if init == [] {
    } else {
      FirstWriteWins(stored, expected, init, follower, providerId);
    }
  }

  class SecretStore {
    var tokens: Option<Tokens>
    const providerId: Option<string>
    const follower: bool

    constructor (tokens: Option<Tokens>, providerId: Option<string>, follower: bool)
      ensures this.tokens == tokens && this.providerId == providerId && this.follower == follower
    {
      this.tokens := tokens;
      this.providerId := providerId;
      this.follower := follower;
    }

    /** The body run under the account's write lease. */
    method UpdateTokens(next: Tokens, expected: Option<Tokens>)
      modifies this
      ensures tokens == CompareAndSet(old(tokens), expected, next, follower, providerId)
      ensures expected == None ==> tokens.Some? && KeptAs(tokens.value, next, follower, providerId)
    {
      if expected.Some? && (tokens == None || !SamePair(tokens.value, expected.value, providerId)) {
        return;
      }
      tokens := Some(Tokens(next.idToken, next.accessToken, if follower then None else next.refreshToken,
                            OrElse(next.accountId, providerId)));
    }
  }
}
