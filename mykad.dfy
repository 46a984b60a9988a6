/** MyKad (national identity card) verification: the format check and the
    decision flow around the registry call. The registry's answer, the
    verification cache and thrown errors arrive as inputs. */
module MyKad {
  import opened Common
  import opened JsText

  /** One element of the identity-number pattern. */
  datatype Token = Digits(count: nat) | Literal(c: char)

  /** `^\d{6}-\d{2}-\d{4}$`. */
  const MyKadPattern := [Digits(6), Literal('-'), Digits(2), Literal('-'), Digits(4)]

  /** The number of characters a string matching the pattern has. */
  function Width(pattern: seq<Token>): nat
    decreases |pattern|
  {
    if pattern == [] then 0
    else (match pattern[0] case Digits(n) => n case Literal(_) => 1) + Width(pattern[1..])
  }

  /** Whether the whole of `s` matches the token sequence. */
  function Matches(pattern: seq<Token>, s: string): (b: bool)
    ensures b ==> |s| == Width(pattern)
    decreases |pattern|
  {
    if pattern == [] then s == []
    else match pattern[0]
      case Digits(n) => n <= |s| && AllDigits(s[..n]) && Matches(pattern[1..], s[n..])
      case Literal(c) => |s| >= 1 && s[0] == c && Matches(pattern[1..], s[1..])
  }

  predicate ValidFormat(s: string): (b: bool)
    ensures b ==> |s| == 14
  {
    Matches(MyKadPattern, s)
  }

  /** The pattern, position by position: fourteen characters, dashes at
      positions 6 and 9, decimal digits everywhere else. */
  lemma ValidFormatPositions(s: string)
    ensures ValidFormat(s) <==>
              && |s| == 14 && s[6] == '-' && s[9] == '-'
              && forall i :: 0 <= i < 14 && i != 6 && i != 9 ==> IsDigit(s[i])
  {
    var p := MyKadPattern;
    assert p[1..][1..][1..][1..][1..] == [];
    if |s| == 14 && s[6] == '-' && s[9] == '-'
       && forall i :: 0 <= i < 14 && i != 6 && i != 9 ==> IsDigit(s[i]) {
      assert s[..6][..] == s[0..6];
      assert s[6..][1..] == s[7..];
      assert s[7..][2..] == s[9..];
      assert s[9..][1..] == s[10..];
      assert s[10..][4..] == [];
      assert Matches(p[1..][1..][1..][1..], s[10..]);
    }
    if ValidFormat(s) {
      assert AllDigits(s[..6]);
      assert AllDigits(s[7..][..2]);
      assert AllDigits(s[10..][..4]);
      assert |s[10..]| == 4;
      forall i | 0 <= i < 14 && i != 6 && i != 9 ensures IsDigit(s[i]) {
        if i < 6 { assert s[i] == s[..6][i]; }
        else if i < 9 { assert s[i] == s[7..][..2][i - 7]; }
        else { assert s[i] == s[10..][..4][i - 10]; }
      }
    }
  }

  lemma FormatExamples()
    ensures ValidFormat("850123-14-5678")
    ensures !ValidFormat("850123145678")
    ensures !ValidFormat("850123-14-567")
  {
    ValidFormatPositions("850123-14-5678");
    ValidFormatPositions("850123145678");
    ValidFormatPositions("850123-14-567");
  }

  /** A verification cache entry. */
  datatype Identity = Identity(fullName: string, email: string, phone: string,
                               address: string, bumiputeraStatus: bool)

  /** What the caller learns: `verified`, and the identity when verified. */
  datatype Verification = Verification(verified: bool, identity: Option<Identity>)

  const NotVerified := Verification(false, None)

  /** The identity the simulated registry returns for every valid number. */
  const SimulatedIdentity := Identity("Ahmad bin Abdullah", "ahmad@example.com", "+60123456789",
                                      "123 Jalan Sultan Ismail, Kuala Lumpur", true)

  /** How each external step turns out. */
  datatype RegistryReply = RegistryThrows | RegistryResponse(ok: bool)
  datatype CacheReply = CacheThrows | CacheHit(entry: Identity) | CacheMiss

  /** The external calls made, in order. */
  datatype Call = AskRegistry(idNumber: string, biometricToken: string)
                | LookUpCache(mykadId: string)
                | StoreInCache(mykadId: string, entry: Identity)

  datatype Outcome = Outcome(result: Verification, calls: seq<Call>)

  /** The verification flow. `insertThrows` says whether storing the new
      cache entry throws. */
  function Verify(idNumber: string, biometricToken: string, registry: RegistryReply,
                  cache: CacheReply, insertThrows: bool): (o: Outcome)
    ensures !ValidFormat(idNumber) ==> o == Outcome(NotVerified, [])
    ensures ValidFormat(idNumber) ==> |o.calls| >= 1 && o.calls[0] == AskRegistry(idNumber, biometricToken)
    ensures registry != RegistryResponse(true) ==> o.result == NotVerified
    ensures cache.CacheThrows? || (cache.CacheMiss? && insertThrows) ==> o.result == NotVerified
    ensures o.result.verified <==> o.result.identity.Some?
    ensures o.result.verified <==>
              ValidFormat(idNumber) && registry == RegistryResponse(true)
              && (cache.CacheHit? || (cache.CacheMiss? && !insertThrows))
    ensures o.result.verified ==>
              o.result.identity == Some(if cache.CacheHit? then cache.entry else SimulatedIdentity)
  {
    if !ValidFormat(idNumber) then Outcome(NotVerified, [])
    else
      var asked := [AskRegistry(idNumber, biometricToken)];
      match registry
      case RegistryThrows => Outcome(NotVerified, asked)
      case RegistryResponse(ok) =>
        if !ok then Outcome(NotVerified, asked)
        else
          var looked := asked + [LookUpCache(idNumber)];
          match cache
          case CacheThrows => Outcome(NotVerified, looked)
          case CacheHit(entry) => Outcome(Verification(true, Some(entry)), looked)
          case CacheMiss =>
            var stored := looked + [StoreInCache(idNumber, SimulatedIdentity)];
            if insertThrows then Outcome(NotVerified, stored)
            else Outcome(Verification(true, Some(SimulatedIdentity)), stored)
  }

  /** Once a number has been verified through the simulated path, its cache
      entry answers the next verification with the same identity. */
  lemma CacheReplaysVerification(idNumber: string, token: string, token': string)
    requires ValidFormat(idNumber)
    ensures var first := Verify(idNumber, token, RegistryResponse(true), CacheMiss, false);
            && first.calls[|first.calls| - 1] == StoreInCache(idNumber, SimulatedIdentity)
            && Verify(idNumber, token', RegistryResponse(true), CacheHit(SimulatedIdentity), false).result
               == first.result
  {
  }
}
