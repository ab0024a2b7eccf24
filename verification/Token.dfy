/** internal/token/jwt.go and the memo conversions of internal/httpapi/auth_handler.go. */
module Token {
  import opened Prelude

  const MAX_UINT64 := 0xFFFF_FFFF_FFFF_FFFF

  // ---- strconv on unsigned decimals ------------------------------------------------------------

  predicate IsDigit(c: char) { '0' <= c <= '9' }

  predicate Digits(s: string) {
    forall i :: 0 <= i < |s| ==> IsDigit(s[i])
  }

  function FormatUint(n: nat): (s: string)
    ensures s != "" && Digits(s)
  {
    if n < 10 then [('0' as int + n) as char]
    else FormatUint(n / 10) + [('0' as int + n % 10) as char]
  }

  /** The number a string of digits writes. */
  function Value(s: string): nat
    requires Digits(s)
  {
    if s == "" then 0 else Value(s[..|s| - 1]) * 10 + (s[|s| - 1] as int - '0' as int)
  }

  function ParseUint(s: string): Option<nat> {
    if s == "" || !Digits(s) || Value(s) > MAX_UINT64 then None else Some(Value(s))
  }

  lemma {:induction false} ValueOfFormat(n: nat)
    ensures Value(FormatUint(n)) == n
  {
    if n < 10 {
      assert FormatUint(n)[..0] == "";
    } else {
      ValueOfFormat(n / 10);
      var s := FormatUint(n);
      assert s[..|s| - 1] == FormatUint(n / 10);
    }
  }

  /** It writes no leading zero. */
  lemma {:induction false} FormatIsCanonical(n: nat)
    ensures FormatUint(n)[0] == '0' <==> n == 0
    ensures |FormatUint(n)| == 1 <==> n < 10
  {
    if n >= 10 { FormatIsCanonical(n / 10); }
  }

  // ---- Memos -----------------------------------------------------------------------------------

  /** The optional memo parameter; the error means it is not an unsigned 64-bit integer. */
  function ParseMemo(raw: string): Result<Option<nat>, ()> {
    if raw == "" then Ok(None)
    else match ParseUint(raw)
      case None => Err(())
      case Some(v) => Ok(Some(v))
  }

  function MemoString(memo: Option<nat>): string {
    match memo
    case None => ""
    case Some(id) => FormatUint(id)
  }

  predicate Is64Bit(memo: Option<nat>) {
    memo.Some? ==> memo.value <= MAX_UINT64
  }

  /** parseMemo undoes memoString on every 64-bit memo and refuses what memoString writes for any larger number. */
  lemma MemoRoundTrip(memo: Option<nat>)
    ensures ParseMemo(MemoString(memo)) == if Is64Bit(memo) then Ok(memo) else Err(())
  {
    if memo.Some? {
      ValueOfFormat(memo.value);
    }
  }

  /** It accepts nothing but decimals below 2^64, and every memo it yields is 64-bit. */
  lemma ParseMemoExact(raw: string)
    ensures ParseMemo(raw).Ok? <==> Digits(raw) && Value(raw) < 18_446_744_073_709_551_616
    ensures ParseMemo(raw).Ok? ==> Is64Bit(ParseMemo(raw).value)
    ensures ParseMemo(raw).Ok? ==> Value(MemoString(ParseMemo(raw).value)) == Value(raw)
  {
    match ParseMemo(raw)
    case Ok(Some(v)) => ValueOfFormat(v);
    case _ =>
  }

  // ---- The sub claim ---------------------------------------------------------------------------

  function Subject(account: string, memo: Option<nat>): string {
    match memo
    case None => account
    case Some(id) => account + ":" + FormatUint(id)
  }

  /** The account alone, or the account, a colon and the memo in decimal without leading zeros. */
  lemma SubjectFormat(account: string, id: nat)
    ensures Subject(account, None) == account
    ensures account + ":" <= Subject(account, Some(id))
    ensures var digits := Subject(account, Some(id))[|account| + 1..];
      && digits != "" && Digits(digits) && Value(digits) == id
      && (digits[0] == '0' <==> id == 0) && (id < 10 <==> |digits| == 1)
      && ParseUint(digits) == if id < 18_446_744_073_709_551_616 then Some(id) else None
  {
    ValueOfFormat(id);
    FormatIsCanonical(id);
    assert Subject(account, Some(id))[|account| + 1..] == FormatUint(id);
  }

  lemma ColonMeansMemo(account: string, memo: Option<nat>)
    requires ':' !in account
    ensures ':' in Subject(account, memo) <==> memo.Some?
  {
    if memo.Some? {
      assert Subject(account, memo)[|account|] == ':';
    }
  }

  /** Among accounts written without a colon, the subject determines both the account and the memo. */
  lemma SubjectInjective(a: string, m: Option<nat>, b: string, n: Option<nat>)
    requires ':' !in a && ':' !in b
    requires Subject(a, m) == Subject(b, n)
    ensures a == b && m == n
  {
    var s := Subject(a, m);
    ColonMeansMemo(a, m);
    ColonMeansMemo(b, n);
    if m.Some? {
      assert s[|a|] == ':' && s[|b|] == ':';
      assert forall i :: 0 <= i < |a| ==> s[i] == a[i];
      assert forall i :: 0 <= i < |b| ==> s[i] == b[i];
      assert |a| == |b|;
      assert a == s[..|a|] && b == s[..|b|];
      assert FormatUint(m.value) == s[|a| + 1..] && FormatUint(n.value) == s[|b| + 1..];
      ValueOfFormat(m.value);
      ValueOfFormat(n.value);
    }
  }

  // ---- Claims ----------------------------------------------------------------------------------

  datatype Issuer = Issuer(name: string, lifetime: int)

  /** issuedAt is in nanoseconds. */
  datatype Request = Request(account: string, memo: Option<nat>, clientDomain: string, jti: string, issuedAt: int)

  /** Dates are in whole seconds, as JWT numeric dates are truncated. */
  datatype Claims = Claims(iss: string, sub: string, jti: string, iat: int, exp: int, clientDomain: string)

  datatype TokenError = AccountRequired | JtiRequired

  function Issue(iss: Issuer, req: Request): Result<Claims, TokenError> {
    if req.account == "" then Err(AccountRequired)
    else if req.jti == "" then Err(JtiRequired)
    else Ok(Claims(iss.name, Subject(req.account, req.memo), req.jti,
                   req.issuedAt / SECOND, (req.issuedAt + iss.lifetime) / SECOND, req.clientDomain))
  }

  /** A token names the one account and memo it was minted for. */
  lemma ClaimsDetermineSubject(iss: Issuer, r: Request, q: Request)
    requires ':' !in r.account && ':' !in q.account
    requires Issue(iss, r).Ok? && Issue(iss, r) == Issue(iss, q)
    ensures r.account == q.account && r.memo == q.memo && r.clientDomain == q.clientDomain && r.jti == q.jti
    ensures -SECOND < r.issuedAt - q.issuedAt < SECOND
  {
    SubjectInjective(r.account, r.memo, q.account, q.memo);
  }
}
