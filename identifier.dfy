/**
 * Resource identifiers (`sigmafive::resource`).  A `constexpr_identifier` is a hash
 * value; a `development_identifier` adds the name the hash was computed from.
 * Names built from files have the form `type://relative/path` or
 * `type://relative/path:sub_name`, with every backslash turned into a slash.
 *
 * `compile_time_hash` and the boost filesystem operations are not part of this
 * model; they are passed in as functions (`Env`).
 */
module Identifiers {

  /** `util::hash_type`. */
  type HashType = nat

  /** A `boost::filesystem::path`. */
  type Path(==)

  /** The outside operations the identifiers are built with. */
  datatype Env = Env(
    hash: string -> HashType,          // util::compile_time_hash
    absolute: (Path, Path) -> Path,    // boost::filesystem::absolute(path, base)
    dropExtension: Path -> Path,       // path.replace_extension("")
    divergence: (Path, Path) -> Path,  // util::path_divergence(root, path)
    text: Path -> string)              // path.string()

  datatype ConstexprIdentifier = ConstexprIdentifier(value: HashType)

  datatype DevelopmentIdentifier = DevelopmentIdentifier(value: HashType, name: string)
  {
    /** The `constexpr_identifier` base part. */
    function Base(): ConstexprIdentifier
    {
      ConstexprIdentifier(value)
    }
  }

  /** `constexpr_identifier::operator==`: identifiers are equal when their values are. */
  function Eq(a: ConstexprIdentifier, b: ConstexprIdentifier): (r: bool)
    ensures r <==> a == b
    ensures r <==> Print(a) == Print(b)
  {
    PrintInjective(a, b);
    a.value == b.value
  }

  /** `constexpr_identifier::operator!=`. */
  function Neq(a: ConstexprIdentifier, b: ConstexprIdentifier): (r: bool)
    ensures r <==> !Eq(a, b)
  {
    a.value != b.value
  }

  /** `value()`. */
  function Value(id: ConstexprIdentifier): HashType
  {
    id.value
  }

  /** The conversion `operator util::hash_type()`. */
  function AsHash(id: ConstexprIdentifier): HashType
  {
    id.value
  }

  /** `value()` and the conversion to `hash_type` agree. */
  lemma ValueIsConversion(id: ConstexprIdentifier)
    ensures Value(id) == AsHash(id) == id.value
  {
  }

  /**
   * `development_identifier(const char*)` and `development_identifier(const std::string&)`:
   * the name is kept as given and the value is its hash.
   */
  function Named(env: Env, name: string): (id: DevelopmentIdentifier)
    ensures id.name == name && id.value == env.hash(name)
  {
    DevelopmentIdentifier(env.hash(name), name)
  }

  /** Two development identifiers compare as their base parts do: by value, whatever their names. */
  lemma SameNameSameIdentifier(env: Env, n1: string, n2: string)
    ensures n1 == n2 ==> Eq(Named(env, n1).Base(), Named(env, n2).Base())
    ensures Eq(Named(env, n1).Base(), Named(env, n2).Base()) <==> env.hash(n1) == env.hash(n2)
  {
  }

  /** `name()`. */
  function Name(id: DevelopmentIdentifier): string
  {
    id.name
  }

  // ---------------------------------------------------------------------------
  // replace_all(name_, "\\", "/")
  // ---------------------------------------------------------------------------

  function SlashFor(c: char): char
  {
    if c == '\\' then '/' else c
  }

  /** The string with every backslash replaced by a slash. */
  function Slashed(s: string): (r: string)
    ensures |r| == |s|
    ensures forall i :: 0 <= i < |s| ==> r[i] == SlashFor(s[i])
  {
    if s == [] then [] else Slashed(s[..|s| - 1]) + [SlashFor(s[|s| - 1])]
  }

  /** No backslash is left. */
  lemma SlashedHasNoBackslash(s: string)
    ensures forall i :: 0 <= i < |Slashed(s)| ==> Slashed(s)[i] != '\\'
  {
  }

  /** The rewriting works character by character, so it distributes over concatenation. */
  lemma SlashedAppend(a: string, b: string)
    ensures Slashed(a + b) == Slashed(a) + Slashed(b)
  {
    assert forall i :: 0 <= i < |a + b| ==> Slashed(a + b)[i] == (Slashed(a) + Slashed(b))[i];
  }

  /** Rewriting twice changes nothing more. */
  lemma SlashedIdempotent(s: string)
    ensures Slashed(Slashed(s)) == Slashed(s)
  {
    assert forall i :: 0 <= i < |s| ==> Slashed(Slashed(s))[i] == Slashed(s)[i];
  }

  /** `boost::algorithm::replace_all(s, "\\", "/")`, in place, left to right. */
  method ReplaceAll(s: string) returns (r: string)
    ensures r == Slashed(s)
  {
    r := s;
    var i := 0;
    while i < |r|
      invariant 0 <= i <= |r| == |s|
      invariant forall k :: 0 <= k < i ==> r[k] == SlashFor(s[k])
      invariant forall k :: i <= k < |r| ==> r[k] == s[k]
    {
      if r[i] == '\\' {
        r := r[i := '/'];
      }
      i := i + 1;
    }
  }

  // ---------------------------------------------------------------------------
  // The constructors from files
  // ---------------------------------------------------------------------------

  /** The resource path of `path` below `root`, as text: made absolute, extension dropped, made relative. */
  function ResourceText(env: Env, path: Path, root: Path): string
  {
    env.text(env.divergence(root, env.dropExtension(env.absolute(path, root))))
  }

  /**
   * `development_identifier(type, path, root_directroy)`: the name is `type://` and
   * the resource path with backslashes rewritten; the value is the hash of the name.
   */
  method FromPath(env: Env, kind: string, path: Path, root: Path) returns (id: DevelopmentIdentifier)
    ensures id.name == kind + "://" + Slashed(ResourceText(env, path, root))
    ensures id.value == env.hash(id.name)
    ensures forall i :: |kind| + 3 <= i < |id.name| ==> id.name[i] != '\\'
  {
    var p := env.absolute(path, root);
    p := env.dropExtension(p);
    var resourcePath := env.divergence(root, p);
    var name := env.text(resourcePath);
    name := ReplaceAll(name);
    name := kind + "://" + name;
    id := DevelopmentIdentifier(env.hash(name), name);
  }

  /**
   * `development_identifier(type, path, sub_name, root_directroy)`: as `FromPath`,
   * with `:` and the sub-name appended before the rewriting, so backslashes in the
   * sub-name are rewritten too.
   */
  method FromSubPath(env: Env, kind: string, path: Path, subName: string, root: Path) returns (id: DevelopmentIdentifier)
    ensures id.name == kind + "://" + Slashed(ResourceText(env, path, root)) + ":" + Slashed(subName)
    ensures id.value == env.hash(id.name)
    ensures forall i :: |kind| + 3 <= i < |id.name| ==> id.name[i] != '\\'
  {
    var p := env.absolute(path, root);
    p := env.dropExtension(p);
    var resourcePath := env.divergence(root, p);
    var text := env.text(resourcePath);
    var name := text + ":" + subName;
    SlashedAppend(text + ":", subName);
    SlashedAppend(text, ":");
    SlashedHasNoBackslash(name);
    name := ReplaceAll(name);
    var prefix := kind + "://";
    PrefixedNoBackslash(prefix, name);
    Regroup(prefix, Slashed(text), Slashed(subName));
    name := prefix + name;
    id := DevelopmentIdentifier(env.hash(name), name);
  }

  /** A prefix followed by text without backslashes has none after the prefix. */
  lemma PrefixedNoBackslash(prefix: string, s: string)
    requires forall i :: 0 <= i < |s| ==> s[i] != '\\'
    ensures forall i :: |prefix| <= i < |prefix + s| ==> (prefix + s)[i] != '\\'
  {
    assert forall i :: |prefix| <= i < |prefix + s| ==> (prefix + s)[i] == s[i - |prefix|];
  }

  /** `p + ((a + ":") + b)` regrouped to the left. */
  lemma Regroup(p: string, a: string, b: string)
    ensures p + (a + ":" + b) == p + a + ":" + b
  {
  }

  // ---------------------------------------------------------------------------
  // operator<<
  // ---------------------------------------------------------------------------

  predicate IsDigit(c: char)
  {
    '0' <= c <= '9'
  }

  function DigitChar(d: nat): (c: char)
    requires d < 10
    ensures IsDigit(c) && c as int - '0' as int == d
  {
    ('0' as int + d) as char
  }

  /** The number a digit string denotes, its digits read from left to right. */
  function DigitsValue(s: string): nat
    requires forall i :: 0 <= i < |s| ==> IsDigit(s[i])
  {
    if s == [] then 0 else 10 * DigitsValue(s[..|s| - 1]) + DigitValue(s[|s| - 1])
  }

  function DigitValue(c: char): nat
    requires IsDigit(c)
  {
    c as int - '0' as int
  }

  /** A `hash_type` written to a stream: decimal, no leading zeros. */
  function Decimal(n: nat): (s: string)
    ensures |s| >= 1 && forall i :: 0 <= i < |s| ==> IsDigit(s[i])
    ensures DigitsValue(s) == n
    ensures s[0] == '0' <==> n == 0
    ensures |s| == 1 <==> n < 10
    decreases n
  {
    if n < 10 then [DigitChar(n)] else Decimal(n / 10) + [DigitChar(n % 10)]
  }

  /** A digit string without a leading zero is the decimal form of the number it denotes. */
  lemma {:induction false} DecimalOfDigits(s: string)
    requires |s| >= 1 && forall i :: 0 <= i < |s| ==> IsDigit(s[i])
    requires s[0] != '0' || |s| == 1
    ensures Decimal(DigitsValue(s)) == s
    decreases |s|
  {
    var init, last := s[..|s| - 1], s[|s| - 1];
    if |s| >= 2 {
      assert init[0] == s[0];
      LeadingDigitPositive(init);
      DecimalOfDigits(init);
      assert Decimal(DigitsValue(s)) == init + [last];
    }
  }

  /** A digit string that does not start with `0` denotes a positive number. */
  lemma {:induction false} LeadingDigitPositive(s: string)
    requires |s| >= 1 && forall i :: 0 <= i < |s| ==> IsDigit(s[i])
    requires s[0] != '0'
    ensures DigitsValue(s) >= 1
    decreases |s|
  {
    if |s| >= 2 {
      assert s[..|s| - 1][0] == s[0];
      LeadingDigitPositive(s[..|s| - 1]);
    }
  }

  /** The decimal text determines the number. */
  lemma {:induction false} DecimalInjective(m: nat, n: nat)
    ensures Decimal(m) == Decimal(n) ==> m == n
    decreases m
  {
    if Decimal(m) == Decimal(n) {
      var s := Decimal(m);
      if m >= 10 && n >= 10 {
        assert Decimal(m / 10) == s[..|s| - 1] == Decimal(n / 10);
        DecimalInjective(m / 10, n / 10);
      }
    }
  }

  /** `operator<<(ostream&, const constexpr_identifier&)`: `{"value:"<v>}`. */
  function Print(id: ConstexprIdentifier): (r: string)
    ensures |r| == 10 + |Decimal(id.value)|
    ensures r[0] == '{' && r[1..9] == "\"value:\"" && r[|r| - 1] == '}'
    ensures r[9..|r| - 1] == Decimal(id.value)
    ensures forall i :: 9 <= i < |r| - 1 ==> IsDigit(r[i])
  {
    "{" + "\"value:\"" + Decimal(id.value) + "}"
  }

  /** `operator<<(ostream&, const development_identifier&)`: `{"value:"<v>,"name:"<n>}`. */
  function PrintDevelopment(id: DevelopmentIdentifier): (r: string)
    ensures var base := Print(id.Base()); r == base[..|base| - 1] + ",\"name:\"" + id.name + "}"
  {
    "{" + "\"value:\"" + Decimal(id.value) + ",\"name:\"" + id.name + "}"
  }

  /** Digits followed by a non-digit: the digit run is determined by the whole string. */
  lemma {:induction false} DigitsPrefix(d1: string, r1: string, d2: string, r2: string)
    requires forall i :: 0 <= i < |d1| ==> IsDigit(d1[i])
    requires forall i :: 0 <= i < |d2| ==> IsDigit(d2[i])
    requires |r1| >= 1 && !IsDigit(r1[0]) && |r2| >= 1 && !IsDigit(r2[0])
    requires d1 + r1 == d2 + r2
    ensures d1 == d2 && r1 == r2
  {
    assert forall i :: 0 <= i < |d1| ==> (d1 + r1)[i] == d1[i];
    assert forall i :: 0 <= i < |d2| ==> (d2 + r2)[i] == d2[i];
    assert (d1 + r1)[|d1|] == r1[0] && (d2 + r2)[|d2|] == r2[0];
    assert |d1| == |d2|;
    assert d1 == (d1 + r1)[..|d1|] == (d2 + r2)[..|d2|] == d2;
    assert r1 == (d1 + r1)[|d1|..] == (d2 + r2)[|d2|..] == r2;
  }

  /** The printed form of a plain identifier determines it. */
  lemma PrintInjective(a: ConstexprIdentifier, b: ConstexprIdentifier)
    ensures Print(a) == Print(b) <==> a == b
  {
    if Print(a) == Print(b) {
      var p := "{" + "\"value:\"";
      assert Print(a) == p + (Decimal(a.value) + "}");
      assert Print(b) == p + (Decimal(b.value) + "}");
      assert Decimal(a.value) + "}" == Print(a)[|p|..] == Print(b)[|p|..] == Decimal(b.value) + "}";
      DigitsPrefix(Decimal(a.value), "}", Decimal(b.value), "}");
      DecimalInjective(a.value, b.value);
    }
  }

  /** The printed form of a development identifier determines both its value and its name. */
  lemma PrintDevelopmentInjective(a: DevelopmentIdentifier, b: DevelopmentIdentifier)
    ensures PrintDevelopment(a) == PrintDevelopment(b) <==> a == b
  {
    if PrintDevelopment(a) == PrintDevelopment(b) {
      var p := "{" + "\"value:\"";
      var ra, rb := NameTail(a.name), NameTail(b.name);
      DevelopmentSplit(a);
      DevelopmentSplit(b);
      assert Decimal(a.value) + ra == PrintDevelopment(a)[|p|..] == PrintDevelopment(b)[|p|..] == Decimal(b.value) + rb;
      DigitsPrefix(Decimal(a.value), ra, Decimal(b.value), rb);
      DecimalInjective(a.value, b.value);
      NameTailInjective(a.name, b.name);
    }
  }

  /** What follows the value in a printed development identifier. */
  function NameTail(name: string): string
  {
    ",\"name:\"" + name + "}"
  }

  /** A printed development identifier is the prefix, the value's digits and the name part. */
  lemma DevelopmentSplit(id: DevelopmentIdentifier)
    ensures PrintDevelopment(id) == "{" + "\"value:\"" + (Decimal(id.value) + NameTail(id.name))
  {
  }

  /** The name part determines the name. */
  lemma NameTailInjective(n1: string, n2: string)
    ensures NameTail(n1) == NameTail(n2) ==> n1 == n2
  {
    if NameTail(n1) == NameTail(n2) {
      assert n1 == NameTail(n1)[8..|NameTail(n1)| - 1];
      assert n2 == NameTail(n2)[8..|NameTail(n2)| - 1];
    }
  }
}
