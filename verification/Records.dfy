/** What the handlers of internal/httpapi/auth_handler.go write down and ask for. */
module Records {
  import opened Txn
  import I = Issuer
  import T = Token
  import S = Store

  function RecordOf(issued: I.IssuedChallenge, at: int): S.ChallengeRecord {
    S.ChallengeRecord(issued.nonce, issued.account, issued.homeDomain, issued.clientDomain, at, issued.expiresAt)
  }

  function SessionOf(env: Env, tokens: T.Issuer, ch: Challenge, homeDomain: string, now: int): S.SessionRecord {
    S.SessionRecord(env.hash(ch.tx.body), ch.clientAccount, T.MemoString(ch.memo), homeDomain, ch.clientDomain,
                    now, now + tokens.lifetime)
  }

  function TokenRequest(env: Env, ch: Challenge, now: int): T.Request {
    T.Request(ch.clientAccount, ch.memo, ch.clientDomain, env.hash(ch.tx.body), now)
  }

  /** The stored account and client domain are the posted ones; the memo and the home domain are never compared. */
  predicate SameClient(ch: Challenge, account: Address, clientDomain: string) {
    account == ch.clientAccount && clientDomain == ch.clientDomain
  }
}
