/**
 * Random short-code generation (app/Services/CodeGeneratorService.php and the `code` section of
 * config/shortener.php).
 *
 * The randomness is a parameter: `RandomBytes(b)` stands for a successful `random_bytes(length)`
 * that returned the bytes `b`; `RandomInts(k)` for the fallback path, taken when `random_bytes`
 * throws, whose successive `random_int(0, n - 1)` calls returned `k`. The alphabet is treated as a
 * sequence of single-byte characters.
 */
module CodeGeneration {
  import opened Wrappers

  const DefaultLength: int := 6
  const DefaultAlphabet: string := "abcdefghjkmnpqrtuvwxyACDEFGHJKMNPQRTUVWXY346789"
  const DefaultMaxAttempts: int := 10

  /** The `shortener.code` settings; `None` means the key is absent, so the default applies. */
  datatype CodeConfig = CodeConfig(length: Option<int>, alphabet: Option<string>, maxAttempts: Option<int>)

  /** The settings config/shortener.php ships when no environment override is present. */
  const ShippedConfig: CodeConfig := CodeConfig(Some(6), Some(DefaultAlphabet), Some(10))

  /** `config('shortener.code.max_attempts', 10)`. */
  function MaxAttempts(config: CodeConfig): int
  {
    OrElse(config.maxAttempts, DefaultMaxAttempts)
  }

  datatype Entropy = RandomBytes(bytes: seq<int>) | RandomInts(indices: seq<int>)

  /** The generator's two settings, fixed at construction. */
  datatype CodeGeneratorService = CodeGeneratorService(length: int, alphabet: string)
  {
    function GetLength(): int { length }

    function GetAlphabet(): string { alphabet }

    /** `generate()` returns the empty string when there is nothing to draw from or nothing to draw. */
    predicate Degenerate()
    {
      |alphabet| == 0 || length < 1
    }

    /** What the platform delivers: `length` bytes, or `length` indices in `[0, |alphabet|)`. */
    predicate Supplies(e: Entropy)
    {
      match e
      case RandomBytes(b) => |b| == length && forall i :: 0 <= i < |b| ==> 0 <= b[i] < 256
      case RandomInts(k) => |k| == length && forall i :: 0 <= i < |k| ==> 0 <= k[i] < |alphabet|
    }

    /** The alphabet position chosen for the `i`-th character. */
    function Pick(e: Entropy, i: nat): (k: int)
      requires !Degenerate() && Supplies(e) && i < length
      ensures 0 <= k < |alphabet|
    {
      match e
      case RandomBytes(b) => b[i] % |alphabet|
      case RandomInts(k) => k[i]
    }

    /** The first `n` characters `generate()` picks from the entropy `e`. */
    function Prefix(e: Entropy, n: nat): (s: string)
      requires !Degenerate() && Supplies(e) && n <= length
      ensures |s| == n
      ensures forall i :: 0 <= i < n ==> s[i] == alphabet[Pick(e, i)]
    {
      if n == 0 then [] else Prefix(e, n - 1) + [alphabet[Pick(e, n - 1)]]
    }

    /** The code `generate()` produces from the entropy `e`. */
    function Code(e: Entropy): (code: string)
      requires Degenerate() || Supplies(e)
    {
      if Degenerate() then "" else Prefix(e, length)
    }
  }

  /** `new CodeGeneratorService($length, $alphabet)`: an argument wins over the configured value. */
  function New(length: Option<int>, alphabet: Option<string>, config: CodeConfig): (g: CodeGeneratorService)
    ensures length.Some? ==> g.GetLength() == length.value
    ensures alphabet.Some? ==> g.GetAlphabet() == alphabet.value
    ensures length.None? && config.length.Some? ==> g.GetLength() == config.length.value
    ensures alphabet.None? && config.alphabet.Some? ==> g.GetAlphabet() == config.alphabet.value
    ensures length.None? && config.length.None? ==> g.GetLength() == DefaultLength
    ensures alphabet.None? && config.alphabet.None? ==> g.GetAlphabet() == DefaultAlphabet
  {
    CodeGeneratorService(
      OrElse(length, OrElse(config.length, DefaultLength)),
      OrElse(alphabet, OrElse(config.alphabet, DefaultAlphabet)))
  }

  /** `generate()`: appends one alphabet character per position. */
  method Generate(g: CodeGeneratorService, e: Entropy) returns (code: string)
    requires g.Degenerate() || g.Supplies(e)
    ensures code == g.Code(e)
    ensures g.Degenerate() ==> code == ""
    ensures !g.Degenerate() ==> |code| == g.length
    ensures forall i :: 0 <= i < |code| ==> code[i] in g.alphabet
    ensures !g.Degenerate() && e.RandomBytes? ==>
      forall i :: 0 <= i < |code| ==> code[i] == g.alphabet[e.bytes[i] % |g.alphabet|]
  {
    var alphabetLength := |g.alphabet|;
    if alphabetLength == 0 || g.length < 1 {
      return "";
    }
    code := "";
    var i := 0;
    while i < g.length
      invariant 0 <= i <= g.length
      invariant code == g.Prefix(e, i)
    {
      var index := match e case RandomBytes(b) => b[i] % alphabetLength case RandomInts(k) => k[i];
      code := code + [g.alphabet[index]];
      i := i + 1;
    }
  }

  /** The position of character `c` in `s`. */
  function IndexOf(s: string, c: char): (k: nat)
    requires c in s
    ensures k < |s| && s[k] == c
  {
    if s[0] == c then 0 else 1 + IndexOf(s[1..], c)
  }

  lemma SmallRemainder(x: int, n: int)
    requires 0 <= x < n
    ensures x % n == x
  {
  }

  /** The alphabet position of each character of `w`. */
  function Positions(alphabet: string, w: string): (b: seq<int>)
    requires forall i :: 0 <= i < |w| ==> w[i] in alphabet
    ensures |b| == |w|
    ensures forall i :: 0 <= i < |w| ==> 0 <= b[i] < |alphabet| && alphabet[b[i]] == w[i]
  {
    seq(|w|, i requires 0 <= i < |w| => IndexOf(alphabet, w[i]))
  }

  /**
   * Every code of the configured length over the alphabet can come out of the `random_bytes`
   * path: taking each character's alphabet position as its byte reproduces it.
   */
  lemma EveryCodeReachable(g: CodeGeneratorService, w: string)
    requires !g.Degenerate() && |g.alphabet| <= 256
    requires |w| == g.length && forall i :: 0 <= i < |w| ==> w[i] in g.alphabet
    ensures g.Supplies(RandomBytes(Positions(g.alphabet, w)))
    ensures g.Code(RandomBytes(Positions(g.alphabet, w))) == w
  {
    var b := Positions(g.alphabet, w);
    var e := RandomBytes(b);
    assert g.Supplies(e);
    var c := g.Code(e);
    assert |c| == |w|;
    forall i | 0 <= i < |w| ensures c[i] == w[i] {
      assert c[i] == g.alphabet[g.Pick(e, i)];
      SmallRemainder(b[i], |g.alphabet|);
    }
    assert c == w;
  }

  /** The characters the default alphabet is meant to avoid: 0/O, 1/l/I, 2/Z and 5/S. */
  predicate LookAlike(c: char)
  {
    c == '0' || c == 'O' || c == '1' || c == 'l' || c == 'I' || c == '2' || c == 'Z' || c == '5' || c == 'S'
  }

  lemma LowercaseHasNoLookAlike()
    ensures forall c :: c in "abcdefghjkmnpqrtuvwxy" ==> !LookAlike(c)
  {
  }

  lemma UppercaseHasNoLookAlike()
    ensures forall c :: c in "ACDEFGHJKMNPQRTUVWXY" ==> !LookAlike(c)
  {
  }

  lemma DigitsHaveNoLookAlike()
    ensures forall c :: c in "346789" ==> !LookAlike(c)
  {
  }

  /** The default alphabet has 47 characters, none of them a look-alike. */
  lemma DefaultAlphabetFacts()
    ensures |DefaultAlphabet| == 47
    ensures forall c :: c in DefaultAlphabet ==> !LookAlike(c)
  {
    LowercaseHasNoLookAlike();
    UppercaseHasNoLookAlike();
    DigitsHaveNoLookAlike();
    assert DefaultAlphabet == "abcdefghjkmnpqrtuvwxy" + "ACDEFGHJKMNPQRTUVWXY" + "346789";
  }

  /** With the shipped settings a generated code is six characters of the default alphabet. */
  lemma ShippedGeneratorCodes(e: Entropy)
    requires New(None, None, ShippedConfig).Supplies(e)
    ensures |New(None, None, ShippedConfig).Code(e)| == 6
    ensures forall i :: 0 <= i < 6 ==> New(None, None, ShippedConfig).Code(e)[i] in DefaultAlphabet
  {
  }
}
