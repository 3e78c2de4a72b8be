/** The names under which secrets are stored (`serverSettings.ts`): identifiers encoded in base64url
    (section 5 of RFC 4648, without padding) and joined by dashes, which that alphabet also contains. */
module SecretNames {
  import S = SettingsSecrets

  type Byte = b: int | 0 <= b < 256

  type Sextet = v: int | 0 <= v < 64

  // ----- Base64url -----

  function Letter(v: Sextet): char {
    if v < 26 then ('A' as int + v) as char
    else if v < 52 then ('a' as int + v - 26) as char
    else if v < 62 then ('0' as int + v - 52) as char
    else if v == 62 then '-' else '_'
  }

  function First(a: Byte): Sextet { a / 4 }

  function Second(a: Byte, b: Byte): Sextet { a % 4 * 16 + b / 16 }

  function Third(b: Byte, c: Byte): Sextet { b % 16 * 4 + c / 64 }

  function Fourth(c: Byte): Sextet { c % 64 }

  /** Three bytes make four sextets; one or two that are left make two or three, filled up with zeros. */
  function Sextets(bytes: seq<Byte>): seq<Sextet> {
    if |bytes| == 0 then []
    else if |bytes| == 1 then [First(bytes[0]), Second(bytes[0], 0)]
    else if |bytes| == 2 then [First(bytes[0]), Second(bytes[0], bytes[1]), Third(bytes[1], 0)]
    else [First(bytes[0]), Second(bytes[0], bytes[1]), Third(bytes[1], bytes[2]), Fourth(bytes[2])] + Sextets(bytes[3..])
  }

  function Letters(sextets: seq<Sextet>): string {
    seq(|sextets|, i requires 0 <= i < |sextets| => Letter(sextets[i]))
  }

  function Base64Url(bytes: seq<Byte>): string {
    Letters(Sextets(bytes))
  }

  /** The alphabet of the standard, in order (table 2 of section 5). */
  lemma LetterIs(v: Sextet)
    ensures v < 26 ==> Letter(v) == "ABCDEFGHIJKLMNOPQRSTUVWXYZ"[v]
    ensures 26 <= v < 52 ==> Letter(v) == "abcdefghijklmnopqrstuvwxyz"[v - 26]
    ensures 52 <= v ==> Letter(v) == "0123456789-_"[v - 52]
  {
    if v < 26 {
      CapitalIs(v);
    } else if v < 52 {
      SmallIs(v - 26);
    }
  }

  lemma CapitalIs(i: nat)
    requires i < 26
    ensures "ABCDEFGHIJKLMNOPQRSTUVWXYZ"[i] == ('A' as int + i) as char
  {
  }

  lemma SmallIs(i: nat)
    requires i < 26
    ensures "abcdefghijklmnopqrstuvwxyz"[i] == ('a' as int + i) as char
  {
  }

  /** Examples of the standard (section 10), and one with the letters it has of its own. */
  lemma StandardExamples()
    ensures Base64Url([]) == "" && Base64Url([0x66]) == "Zg" && Base64Url([0x66, 0x6f]) == "Zm8"
    ensures Base64Url([0x66, 0x6f, 0x6f]) == "Zm9v" && Base64Url([0x66, 0x6f, 0x6f, 0x62]) == "Zm9vYg"
    ensures Base64Url([0xfb, 0xff]) == "-_8"
  {
    var four: seq<Byte> := [0x66, 0x6f, 0x6f, 0x62];
    assert four[3..] == [0x62];
    assert Sextets(four) == [25, 38, 61, 47, 24, 32];
    var three: seq<Byte> := [0x66, 0x6f, 0x6f];
    assert three[3..] == [];
    assert Sextets(three) == [25, 38, 61, 47];
  }

  lemma LettersDiffer(v: Sextet, w: Sextet)
    ensures Letter(v) == Letter(w) ==> v == w
    ensures Letter(v) == '-' <==> v == 62
  {
  }

  lemma SameLetters(x: seq<Sextet>, y: seq<Sextet>)
    requires Letters(x) == Letters(y)
    ensures x == y
  {
    assert |x| == |Letters(x)| && |y| == |Letters(y)|;
    forall i | 0 <= i < |x|
      ensures x[i] == y[i]
    {
      assert Letters(x)[i] == Letters(y)[i];
      LettersDiffer(x[i], y[i]);
    }
  }

  lemma FirstTwo(a: Byte, b: Byte, c: Byte, d: Byte)
    requires First(a) == First(c) && Second(a, b) == Second(c, d)
    ensures a == c && b / 16 == d / 16
  {
  }

  lemma SecondThird(b: Byte, c: Byte, d: Byte, e: Byte)
    requires b / 16 == d / 16 && Third(b, c) == Third(d, e)
    ensures b == d && c / 64 == e / 64
  {
  }

  lemma ThirdFourth(c: Byte, e: Byte)
    requires c / 64 == e / 64 && Fourth(c) == Fourth(e)
    ensures c == e
  {
  }

  function SextetCount(n: nat): nat {
    if n < 3 then (if n == 0 then 0 else n + 1) else 4 + SextetCount(n - 3)
  }

  lemma {:induction false} CountIs(bytes: seq<Byte>)
    ensures |Sextets(bytes)| == SextetCount(|bytes|)
  {
    if |bytes| >= 3 {
      CountIs(bytes[3..]);
    }
  }

  lemma {:induction false} CountGrows(m: nat, n: nat)
    requires m < n
    ensures SextetCount(m) < SextetCount(n)
  {
    if n >= 3 && m >= 3 {
      CountGrows(m - 3, n - 3);
    }
  }

  /** Different bytes have different encodings. */
  lemma {:induction false} SextetsDiffer(x: seq<Byte>, y: seq<Byte>)
    requires |x| == |y| && Sextets(x) == Sextets(y)
    ensures x == y
  {
    if |x| == 1 {
      assert Sextets(x)[0] == Sextets(y)[0] && Sextets(x)[1] == Sextets(y)[1];
      FirstTwo(x[0], 0, y[0], 0);
    } else if |x| == 2 {
      assert Sextets(x)[0] == Sextets(y)[0] && Sextets(x)[1] == Sextets(y)[1] && Sextets(x)[2] == Sextets(y)[2];
      FirstTwo(x[0], x[1], y[0], y[1]);
      SecondThird(x[1], 0, y[1], 0);
    } else if |x| >= 3 {
      assert Sextets(x)[0] == Sextets(y)[0] && Sextets(x)[1] == Sextets(y)[1];
      assert Sextets(x)[2] == Sextets(y)[2] && Sextets(x)[3] == Sextets(y)[3];
      FirstTwo(x[0], x[1], y[0], y[1]);
      SecondThird(x[1], x[2], y[1], y[2]);
      ThirdFourth(x[2], y[2]);
      assert Sextets(x[3..]) == Sextets(x)[4..] && Sextets(y[3..]) == Sextets(y)[4..];
      SextetsDiffer(x[3..], y[3..]);
      assert x == x[..3] + x[3..] && y == y[..3] + y[3..];
      assert x[..3] == y[..3];
    }
  }

  lemma EncodingsDiffer(x: seq<Byte>, y: seq<Byte>)
    requires Base64Url(x) == Base64Url(y)
    ensures x == y
  {
    SameLetters(Sextets(x), Sextets(y));
    CountIs(x);
    CountIs(y);
    if |x| < |y| {
      CountGrows(|x|, |y|);
    } else if |y| < |x| {
      CountGrows(|y|, |x|);
    }
    SextetsDiffer(x, y);
  }

  // ----- Names of secrets -----

  /** The characters of instance ids: letters, digits, dash and underscore. */
  predicate IsSlugByte(b: Byte) {
    || 'a' as int <= b <= 'z' as int || 'A' as int <= b <= 'Z' as int || '0' as int <= b <= '9' as int
    || b == '-' as int || b == '_' as int
  }

  predicate IsSlug(bytes: seq<Byte>) {
    forall i :: 0 <= i < |bytes| ==> IsSlugByte(bytes[i])
  }

  lemma SlugByteParts(b: Byte)
    requires IsSlugByte(b)
    ensures b < 128 && Fourth(b) != 62
  {
  }

  /** A byte below 128 leaves a zero where the sextet of the dash has a one. */
  lemma SmallByteParts(a: Byte, b: Byte, c: Byte)
    requires a < 128 && b < 128 && c < 128
    ensures First(a) != 62 && Second(a, b) != 62 && Third(b, c) != 62
  {
  }

  /** The encoding of a slug has no dash. */
  lemma {:induction false} SlugHasNoDash(bytes: seq<Byte>)
    requires IsSlug(bytes)
    ensures 62 !in Sextets(bytes)
  {
    if |bytes| == 1 {
      SlugByteParts(bytes[0]);
      SmallByteParts(bytes[0], 0, 0);
    } else if |bytes| == 2 {
      SlugByteParts(bytes[0]);
      SlugByteParts(bytes[1]);
      SmallByteParts(bytes[0], bytes[1], 0);
    } else if |bytes| >= 3 {
      SlugByteParts(bytes[0]);
      SlugByteParts(bytes[1]);
      SlugByteParts(bytes[2]);
      SmallByteParts(bytes[0], bytes[1], bytes[2]);
      SlugHasNoDash(bytes[3..]);
    }
  }

  lemma EncodedSlugHasNoDash(bytes: seq<Byte>)
    requires IsSlug(bytes)
    ensures '-' !in Base64Url(bytes)
  {
    SlugHasNoDash(bytes);
    forall i | 0 <= i < |Base64Url(bytes)|
      ensures Base64Url(bytes)[i] != '-'
    {
      assert Sextets(bytes)[i] in Sextets(bytes);
      LettersDiffer(Sextets(bytes)[i], 62);
    }
  }

  /** Texts without a dash end at the first one. */
  lemma SplitAtDash(a: string, b: string, s: string, t: string)
    requires '-' !in a && '-' !in b && a + "-" + s == b + "-" + t
    ensures a == b && s == t
  {
    var x, y := a + "-" + s, b + "-" + t;
    assert x[|a|] == '-' && y[|b|] == '-';
    assert forall i :: 0 <= i < |a| ==> x[i] == a[i] && a[i] in a;
    assert forall i :: 0 <= i < |b| ==> y[i] == b[i] && b[i] in b;
    assert |a| == |b|;
    assert a == x[..|a|] && b == y[..|b|];
    assert s == x[|a| + 1..] && t == y[|b| + 1..];
  }

  function ProviderEnvName(instance: seq<Byte>, variable: seq<Byte>): string {
    "provider-env-" + (Base64Url(instance) + "-" + Base64Url(variable))
  }

  function UsageLimitSourceName(source: seq<Byte>): string {
    "usage-limit-source-" + Base64Url(source)
  }

  lemma ProviderNamesDiffer(instance: seq<Byte>, variable: seq<Byte>, instance': seq<Byte>, variable': seq<Byte>)
    requires IsSlug(instance) && IsSlug(instance')
    requires ProviderEnvName(instance, variable) == ProviderEnvName(instance', variable')
    ensures instance == instance' && variable == variable'
  {
    EncodedSlugHasNoDash(instance);
    EncodedSlugHasNoDash(instance');
    var x, y := ProviderEnvName(instance, variable), ProviderEnvName(instance', variable');
    assert x[13..] == Base64Url(instance) + "-" + Base64Url(variable) && y[13..] == Base64Url(instance') + "-" + Base64Url(variable');
    SplitAtDash(Base64Url(instance), Base64Url(instance'), Base64Url(variable), Base64Url(variable'));
    EncodingsDiffer(instance, instance');
    EncodingsDiffer(variable, variable');
  }

  lemma SourceNamesDiffer(source: seq<Byte>, source': seq<Byte>)
    requires UsageLimitSourceName(source) == UsageLimitSourceName(source')
    ensures source == source'
  {
    assert UsageLimitSourceName(source)[19..] == Base64Url(source) && UsageLimitSourceName(source')[19..] == Base64Url(source');
    EncodingsDiffer(source, source');
  }

  /** The text under which a secret is stored, its identifiers in UTF-8. */
  function StoredName(name: S.SecretName, utf8: string -> seq<Byte>): string {
    match name
    case ProviderEnv(instance, variable) => ProviderEnvName(utf8(instance), utf8(variable))
    case UsageLimitSource(source) => UsageLimitSourceName(utf8(source))
  }

  ghost predicate Injective(utf8: string -> seq<Byte>) {
    forall a, b :: utf8(a) == utf8(b) ==> a == b
  }

  /** Secrets of different owners are stored under different names, for every instance id the settings
      allow: an id of letters, digits, dashes and underscores never encodes to a dash, so the dash that
      joins the two parts can be told from those inside the second. */
  lemma StoredNamesDiffer(a: S.SecretName, b: S.SecretName, utf8: string -> seq<Byte>)
    requires Injective(utf8)
    requires a.ProviderEnv? ==> IsSlug(utf8(a.instance))
    requires b.ProviderEnv? ==> IsSlug(utf8(b.instance))
    ensures StoredName(a, utf8) == StoredName(b, utf8) ==> a == b
  {
    if StoredName(a, utf8) == StoredName(b, utf8) {
      assert StoredName(a, utf8)[0] == (if a.ProviderEnv? then 'p' else 'u');
      assert StoredName(b, utf8)[0] == (if b.ProviderEnv? then 'p' else 'u');
      if a.ProviderEnv? {
        ProviderNamesDiffer(utf8(a.instance), utf8(a.variable), utf8(b.instance), utf8(b.variable));
      } else {
        SourceNamesDiffer(utf8(a.source), utf8(b.source));
      }
    }
  }
}
