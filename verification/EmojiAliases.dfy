/**
 The names under which a user's emojis are listed: an alias stored in several conversations gets a
 number, and the lookup table must not lose one emoji to another (go/chat/emojisource.go:224-247, 540-637, 678-680).
 */
module EmojiAliases {

  const MinShortNameLength := 2
  const MaxShortNameLength := 48

  /******* Decimal numerals *******/

  const Digits := "0123456789"

  function Decimal(n: nat): (s: string)
    ensures s != "" && forall i :: 0 <= i < |s| ==> s[i] in Digits
  {
    if n < 10 then [Digits[n]] else Decimal(n / 10) + [Digits[n % 10]]
  }

  function DigitValue(c: char): nat {
    if '0' <= c <= '9' then (c - '0') as nat else 0
  }

  function Parse(s: string): nat {
    if s == "" then 0 else 10 * Parse(s[..|s| - 1]) + DigitValue(s[|s| - 1])
  }

  lemma {:induction false} ParseDecimal(n: nat)
    ensures Parse(Decimal(n)) == n
  {
    assert DigitValue(Digits[n % 10]) == n % 10;
    if n < 10 {
      assert Decimal(n)[..0] == "";
    } else {
      ParseDecimal(n / 10);
      assert Decimal(n)[..|Decimal(n)| - 1] == Decimal(n / 10);
    }
  }

  /******* Short names *******/

  /** strings.ReplaceAll(shortName, ":", "") */
  function Normalize(s: string): (r: string)
    ensures ':' !in r && forall c :: c in r <==> c in s && c != ':'
  {
    if s == "" then ""
    else Normalize(s[..|s| - 1]) + if s[|s| - 1] == ':' then "" else [s[|s| - 1]]
  }

  datatype Validity = Valid | AlreadyExists | TooLong | TooShort | InvalidCharacter

  function ValidateShortName(s: string, isStock: string -> bool): Validity {
    if isStock(s) then AlreadyExists
    else if |s| > MaxShortNameLength then TooLong
    else if |s| < MinShortNameLength then TooShort
    else if '#' in s then InvalidCharacter
    else Valid
  }

  /** A name is taken exactly when it is no stock emoji, has 2 to 48 characters and no '#'; the first of these that
      fails is the one reported. */
  lemma ValidIff(s: string, isStock: string -> bool)
    ensures ValidateShortName(s, isStock).Valid? <==> !isStock(s) && 2 <= |s| <= 48 && '#' !in s
    ensures ValidateShortName(s, isStock).AlreadyExists? <==> isStock(s)
    ensures ValidateShortName(s, isStock).TooLong? <==> !isStock(s) && |s| > 48
    ensures ValidateShortName(s, isStock).TooShort? <==> !isStock(s) && |s| < 2
  {
  }

  /** A name accepted and normalised has neither '#' nor ':'. */
  lemma AcceptedHasNoHash(s: string, isStock: string -> bool)
    requires ValidateShortName(s, isStock).Valid?
    ensures '#' !in Normalize(s) && ':' !in Normalize(s)
  {
  }

  function Colons(s: string): nat {
    if s == "" then 0 else Colons(s[..|s| - 1]) + if s[|s| - 1] == ':' then 1 else 0
  }

  lemma {:induction false} NormalizeLength(s: string)
    ensures |Normalize(s)| == |s| - Colons(s)
  {
    if s != "" { NormalizeLength(s[..|s| - 1]); }
  }

  /** The length limits are checked before the colons go, so a stored alias can be shorter than the
      minimum, exactly when too much of the name is colons. */
  lemma StoredLengthIff(s: string, isStock: string -> bool)
    requires ValidateShortName(s, isStock).Valid?
    ensures |Normalize(s)| >= MinShortNameLength <==> |s| - Colons(s) >= MinShortNameLength
    ensures |Normalize(s)| <= MaxShortNameLength
  {
    NormalizeLength(s);
  }

  lemma StoredAliasCanBeEmpty()
    ensures ValidateShortName("::", s => false).Valid? && Normalize("::") == ""
  {
    assert "::"[..1] == ":" && ":"[..0] == "";
    assert Normalize(":") == "";
  }

  /** strings.Split(alias, "#")[0] */
  function Strip(alias: string): string {
    if alias == "" || alias[0] == '#' then "" else [alias[0]] + Strip(alias[1..])
  }

  lemma {:induction false} StripNumbered(alias: string, rest: string)
    requires '#' !in alias
    ensures Strip(alias + "#" + rest) == alias && Strip(alias) == alias
  {
    if alias == "" {
      assert ("" + "#" + rest)[0] == '#';
    } else {
      StripNumbered(alias[1..], rest);
      assert (alias + "#" + rest)[1..] == alias[1..] + "#" + rest;
    }
  }

  /******* Numbering *******/

  function Count(aliases: seq<string>, a: string): nat {
    if aliases == [] then 0 else Count(aliases[..|aliases| - 1], a) + if aliases[|aliases| - 1] == a then 1 else 0
  }

  /** The name of the k-th emoji: the alias itself the first time, then alias#2, alias#3 and so on. */
  function NameAt(aliases: seq<string>, k: nat): string
    requires k < |aliases|
  {
    var seen := Count(aliases[..k], aliases[k]);
    if seen == 0 then aliases[k] else aliases[k] + "#" + Decimal(seen + 1)
  }

  ghost predicate NoHash(aliases: seq<string>) {
    forall a :: a in aliases ==> '#' !in a
  }

  lemma StripName(aliases: seq<string>, k: nat)
    requires NoHash(aliases) && k < |aliases|
    ensures Strip(NameAt(aliases, k)) == aliases[k]
  {
    assert aliases[k] in aliases;
    StripNumbered(aliases[k], Decimal(Count(aliases[..k], aliases[k]) + 1));
  }

  lemma {:induction false} CountGrows(aliases: seq<string>, i: nat, j: nat)
    requires i < j <= |aliases|
    ensures Count(aliases[..i], aliases[i]) < Count(aliases[..j], aliases[i])
    decreases j
  {
    assert aliases[..j][..j - 1] == aliases[..j - 1];
    if i < j - 1 { CountGrows(aliases, i, j - 1); }
  }

  lemma NumberedRest(a: string, rest: string)
    ensures (a + "#" + rest)[|a| + 1..] == rest
  {
  }

  lemma NumberedDiffers(a: string, m: nat, n: nat)
    requires '#' !in a && m < n
    ensures (if m == 0 then a else a + "#" + Decimal(m + 1)) != a + "#" + Decimal(n + 1)
  {
    hide Decimal, Parse;
    if m == 0 {
      assert |a + "#" + Decimal(n + 1)| > |a|;
    } else {
      ParseDecimal(m + 1);
      ParseDecimal(n + 1);
      NumberedRest(a, Decimal(m + 1));
      NumberedRest(a, Decimal(n + 1));
    }
  }

  /** Distinct emojis get distinct names, across all conversations. */
  lemma NamesDistinct(aliases: seq<string>, i: nat, j: nat)
    requires NoHash(aliases) && i < j < |aliases|
    ensures NameAt(aliases, i) != NameAt(aliases, j)
  {
    hide Strip, Count, Decimal;
    StripName(aliases, i);
    StripName(aliases, j);
    if aliases[i] == aliases[j] {
      assert aliases[i] in aliases;
      CountGrows(aliases, i, j);
      NumberedDiffers(aliases[i], Count(aliases[..i], aliases[i]), Count(aliases[..j], aliases[j]));
    }
  }

  /** A stored alias with a '#' can take the name of a numbered one. */
  lemma HashAliasCollides()
    ensures var aliases := ["a", "a#2", "a"]; NameAt(aliases, 1) == NameAt(aliases, 2)
  {
    var aliases := ["a", "a#2", "a"];
    assert aliases[..1] == ["a"] && aliases[..2] == ["a", "a#2"] && ["a", "a#2"][..1] == ["a"] && ["a"][..0] == [];
    assert Count(["a"], "a") == 1 && Count(["a", "a#2"], "a") == 1;
    assert Count([], "a#2") == 0 && Count(["a"], "a#2") == 0;
    assert Decimal(2) == "2";
    assert "a" + "#" + "2" == "a#2";
  }
}
