/**
 * `randomString` and `genBytes` (main.go): a freshly allocated slice filled
 * index by index from `rand.Intn`. The generator is an oracle: `draws`
 * lists the answers of the successive `rand.Intn(k)` calls, each in `[0, k)`.
 */
module RandomGen {
  import opened Common

  /** `defaultLetters`: the lower-case letters, then the decimal digits. */
  const DefaultLetters: seq<char> := "abcdefghijklmnopqrstuvwxyz" + "0123456789"

  predicate IsLowerAlnum(c: char)
  {
    'a' <= c <= 'z' || '0' <= c <= '9'
  }

  lemma DefaultLettersAlnum()
    ensures |DefaultLetters| == 36
    ensures forall i :: 0 <= i < |DefaultLetters| ==> IsLowerAlnum(DefaultLetters[i])
  {
    var lower, digits := "abcdefghijklmnopqrstuvwxyz", "0123456789";
    assert forall i :: 0 <= i < |lower| ==> 'a' <= lower[i] <= 'z';
    assert forall i :: 0 <= i < |digits| ==> '0' <= digits[i] <= '9';
  }

  /** The alphabet `randomString` draws from: the first one given, else the default. */
  function Letters(allowedChars: seq<seq<char>>): (letters: seq<char>)
  {
    if |allowedChars| == 0 then DefaultLetters else allowedChars[0]
  }

  /** The oracle's answers fit the calls `rand.Intn(bound)` they stand for. */
  predicate Draws(draws: seq<nat>, count: nat, bound: nat)
  {
    |draws| == count && forall k :: 0 <= k < count ==> draws[k] < bound
  }

  /**
   * `randomString(n, allowedChars...)`: `n` characters, the `i`-th the letter
   * that the `i`-th call of `rand.Intn(len(letters))` picks.
   */
  method RandomString(n: nat, allowedChars: seq<seq<char>>, draws: seq<nat>) returns (s: string)
    requires Draws(draws, n, |Letters(allowedChars)|)
    ensures |s| == n
    ensures forall i :: 0 <= i < n ==> s[i] == Letters(allowedChars)[draws[i]]
    ensures forall i :: 0 <= i < n ==> s[i] in Letters(allowedChars)
  {
    var letters := Letters(allowedChars);
    var b := new char[n];
    for i := 0 to n
      invariant forall j :: 0 <= j < i ==> b[j] == letters[draws[j]]
    {
      b[i] := letters[draws[i]];
    }
    s := b[..];
  }

  /** The session name of `main`: six characters from `a`-`z` and `0`-`9`. */
  method SessionName(draws: seq<nat>) returns (name: string)
    requires Draws(draws, 6, 36)
    ensures |name| == 6
    ensures forall i :: 0 <= i < 6 ==> name[i] == DefaultLetters[draws[i]] && IsLowerAlnum(name[i])
  {
    DefaultLettersAlnum();
    name := RandomString(6, [], draws);
  }

  /** How many oracle answers `genBytes` consumes: one per byte past the identity. */
  function RandomCount(bytes: nat, identity: seq<byte>): (count: nat)
    ensures count + (if bytes < |identity| then bytes else |identity|) == bytes
  {
    if bytes > |identity| then bytes - |identity| else 0
  }

  /**
   * `genBytes(bytes, identity)`: the identity's bytes first, truncated to
   * `bytes`, then `rand.Intn(254) + 1`, so never 0 and never 255.
   */
  method GenBytes(bytes: nat, identity: seq<byte>, draws: seq<nat>) returns (b: seq<byte>)
    requires Draws(draws, RandomCount(bytes, identity), 254)
    ensures |b| == bytes
    ensures forall i :: 0 <= i < bytes && i < |identity| ==> b[i] == identity[i]
    ensures forall i :: |identity| <= i < bytes ==> b[i] as int == draws[i - |identity|] + 1
    ensures forall i :: |identity| <= i < bytes ==> 1 <= b[i] as int <= 254
  {
    var a := new byte[bytes];
    var i := 0;
    while i < bytes
      invariant 0 <= i <= bytes
      invariant forall j :: 0 <= j < i && j < |identity| ==> a[j] == identity[j]
      invariant forall j :: |identity| <= j < i ==> a[j] as int == draws[j - |identity|] + 1
    {
      if i >= |identity| {
        a[i] := (draws[i - |identity|] + 1) as byte;
      } else {
        a[i] := identity[i];
      }
      i := i + 1;
    }
    b := a[..];
  }

  /** `gen16bytes`: 16 bytes starting with the identity. */
  method Gen16Bytes(identity: seq<byte>, draws: seq<nat>) returns (b: seq<byte>)
    requires Draws(draws, RandomCount(16, identity), 254)
    ensures |b| == 16
    ensures forall i :: 0 <= i < 16 && i < |identity| ==> b[i] == identity[i]
    ensures forall i :: |identity| <= i < 16 ==> b[i] != 0
  {
    b := GenBytes(16, identity, draws);
  }

  /** `gen24bytes`: 24 bytes starting with the identity. */
  method Gen24Bytes(identity: seq<byte>, draws: seq<nat>) returns (b: seq<byte>)
    requires Draws(draws, RandomCount(24, identity), 254)
    ensures |b| == 24
    ensures forall i :: 0 <= i < 24 && i < |identity| ==> b[i] == identity[i]
    ensures forall i :: |identity| <= i < 24 ==> b[i] != 0
  {
    b := GenBytes(24, identity, draws);
  }

  /** `gen32bytes`: 32 bytes starting with the identity. */
  method Gen32Bytes(identity: seq<byte>, draws: seq<nat>) returns (b: seq<byte>)
    requires Draws(draws, RandomCount(32, identity), 254)
    ensures |b| == 32
    ensures forall i :: 0 <= i < 32 && i < |identity| ==> b[i] == identity[i]
    ensures forall i :: |identity| <= i < 32 ==> b[i] != 0
  {
    b := GenBytes(32, identity, draws);
  }

  /** `randomBytes`: `bytes` random bytes, none of them 0. */
  method RandomBytes(bytes: nat, draws: seq<nat>) returns (b: seq<byte>)
    requires Draws(draws, bytes, 254)
    ensures |b| == bytes
    ensures forall i :: 0 <= i < bytes ==> b[i] as int == draws[i] + 1
    ensures forall i :: 0 <= i < bytes ==> b[i] != 0
  {
    b := GenBytes(bytes, [], draws);
  }
}
