/**
 * The password generator dialog's algorithm: an alphabet built from the
 * selected character classes, then `length` draws from it. The random
 * choices are supplied by the caller as a sequence of indices.
 */
module Generator {

  /** The characters `lo` to `hi` inclusive, in code-point order. */
  function CharRange(lo: char, hi: char): (r: string)
    requires lo <= hi && hi as int < 0xD800
    ensures |r| == hi as int - lo as int + 1
    ensures forall c :: c in r <==> lo <= c <= hi
    ensures forall i :: 0 <= i < |r| ==> r[i] as int == lo as int + i
  {
    var r := seq(hi as int - lo as int + 1, i requires 0 <= i < hi as int - lo as int + 1 => (lo as int + i) as char);
    forall c | lo <= c <= hi ensures c in r {
      assert r[c as int - lo as int] == c;
    }
    r
  }

  /** `string.ascii_uppercase` */
  const Uppercase: string := CharRange('A', 'Z')
  /** `string.ascii_lowercase` */
  const Lowercase: string := CharRange('a', 'z')
  /** `string.digits` */
  const Digits: string := CharRange('0', '9')
  /** `string.punctuation`: the printable ASCII characters that are neither letters, digits nor space, in code-point order. */
  const Punctuation: string := CharRange('!', '/') + CharRange(':', '@') + CharRange('[', '`') + CharRange('{', '~')

  predicate IsPunctuation(c: char)
  {
    '!' <= c <= '/' || ':' <= c <= '@' || '[' <= c <= '`' || '{' <= c <= '~'
  }

  /** The text shown in place of a password when no class is selected. */
  const NoClassMessage: string := "Selecciona al menos un tipo de carácter"

  /** The four check boxes of the dialog. */
  datatype Classes = Classes(upper: bool, lower: bool, digits: bool, symbols: bool)

  /** The boxes as the dialog opens: letters and digits on, symbols off. */
  const DefaultClasses := Classes(true, true, true, false)

  /** `ch` belongs to one of the selected classes. */
  predicate InClasses(classes: Classes, ch: char)
  {
    || (classes.upper && 'A' <= ch <= 'Z')
    || (classes.lower && 'a' <= ch <= 'z')
    || (classes.digits && '0' <= ch <= '9')
    || (classes.symbols && IsPunctuation(ch))
  }

  predicate NoneSelected(classes: Classes)
  {
    !classes.upper && !classes.lower && !classes.digits && !classes.symbols
  }

  /** The alphabet: the selected classes concatenated, upper, lower, digits, punctuation. */
  function Alphabet(classes: Classes): (r: string)
    ensures |r| == (if classes.upper then 26 else 0) + (if classes.lower then 26 else 0)
                   + (if classes.digits then 10 else 0) + (if classes.symbols then 32 else 0)
    ensures r == "" <==> NoneSelected(classes)
  {
    (if classes.upper then Uppercase else "")
    + (if classes.lower then Lowercase else "")
    + (if classes.digits then Digits else "")
    + (if classes.symbols then Punctuation else "")
  }

  /** The alphabet holds exactly the characters of the selected classes. */
  lemma AlphabetMembers(classes: Classes)
    ensures forall ch :: ch in Alphabet(classes) <==> InClasses(classes, ch)
    ensures Alphabet(classes) == "" <==> NoneSelected(classes)
  {
    forall ch ensures ch in Punctuation <==> IsPunctuation(ch) {
      assert ch in Punctuation <==>
        ch in CharRange('!', '/') || ch in CharRange(':', '@') || ch in CharRange('[', '`') || ch in CharRange('{', '~');
    }
    if !NoneSelected(classes) {
      assert 'A' in Uppercase && 'a' in Lowercase && '0' in Digits && '!' in Punctuation;
    }
  }

  /** Position of a character's class in the alphabet: upper 0, lower 1, digits 2, punctuation 3. */
  function Rank(ch: char): nat
  {
    if 'A' <= ch <= 'Z' then 0 else if 'a' <= ch <= 'z' then 1 else if '0' <= ch <= '9' then 2 else 3
  }

  /** Characters of an earlier class never follow those of a later one. */
  predicate ClassOrdered(s: string)
  {
    forall i, j :: 0 <= i < j < |s| ==> Rank(s[i]) <= Rank(s[j])
  }

  /** Every character of `s` has a class rank between `lo` and `hi`. */
  predicate RanksWithin(s: string, lo: nat, hi: nat)
  {
    forall i :: 0 <= i < |s| ==> lo <= Rank(s[i]) <= hi
  }

  lemma ConcatClassOrdered(a: string, b: string, lo: nat, mid: nat, hi: nat)
    requires lo <= mid <= hi
    requires ClassOrdered(a) && RanksWithin(a, lo, mid)
    requires ClassOrdered(b) && RanksWithin(b, mid, hi)
    ensures ClassOrdered(a + b) && RanksWithin(a + b, lo, hi)
  {
    forall i, j | 0 <= i < j < |a + b|
      ensures Rank((a + b)[i]) <= Rank((a + b)[j])
    {
      if j < |a| {
      } else if i < |a| {
        assert (a + b)[j] == b[j - |a|];
      } else {
        assert (a + b)[i] == b[i - |a|] && (a + b)[j] == b[j - |a|];
      }
    }
    forall i | 0 <= i < |a + b| ensures lo <= Rank((a + b)[i]) <= hi {
      if i < |a| {
        assert (a + b)[i] == a[i];
      } else {
        assert (a + b)[i] == b[i - |a|];
      }
    }
  }

  /** A class block, or nothing when its box is unticked, has a single rank. */
  lemma BlockRank(on: bool, block: string, k: nat)
    requires forall ch :: ch in block ==> Rank(ch) == k
    ensures ClassOrdered(if on then block else "")
    ensures RanksWithin(if on then block else "", k, k)
  {
    var s := if on then block else "";
    forall i | 0 <= i < |s| ensures Rank(s[i]) == k {
      assert s[i] in block;
    }
  }

  /** The alphabet lists the selected classes in the fixed order upper, lower, digits, punctuation. */
  lemma AlphabetOrdered(classes: Classes)
    ensures ClassOrdered(Alphabet(classes))
  {
    var u := if classes.upper then Uppercase else "";
    var l := if classes.lower then Lowercase else "";
    var d := if classes.digits then Digits else "";
    var p := if classes.symbols then Punctuation else "";
    BlockRank(classes.upper, Uppercase, 0);
    BlockRank(classes.lower, Lowercase, 1);
    BlockRank(classes.digits, Digits, 2);
    forall ch | ch in Punctuation ensures Rank(ch) == 3 {
      assert ch in CharRange('!', '/') || ch in CharRange(':', '@') || ch in CharRange('[', '`') || ch in CharRange('{', '~');
    }
    BlockRank(classes.symbols, Punctuation, 3);
    ConcatClassOrdered(u, l, 0, 0, 1);
    ConcatClassOrdered(u + l, d, 0, 1, 2);
    ConcatClassOrdered(u + l + d, p, 0, 2, 3);
  }

  /** Sizes: 26 + 26 + 10 + 32 characters. */
  lemma AlphabetSizes()
    ensures |Uppercase| == 26 && |Lowercase| == 26 && |Digits| == 10 && |Punctuation| == 32
    ensures |Alphabet(DefaultClasses)| == 62
    ensures |Alphabet(Classes(true, true, true, true))| == 94
  {
  }

  /** No password character is a space, while the sentinel message has one. */
  lemma SentinelIsNotAPassword(classes: Classes, password: string)
    requires forall ch :: ch in password ==> InClasses(classes, ch)
    ensures password != NoClassMessage
  {
    assert NoClassMessage[10] == ' ' && ' ' in NoClassMessage;
    assert !InClasses(classes, ' ');
  }

  /** What one press of "Generar" leaves in the password field. */
  datatype Generated = NoClass | Password(text: string)

  /** The text the read-only field then shows. */
  function Shown(g: Generated): (t: string)
    ensures t == NoClassMessage <==> g.NoClass? || g.text == NoClassMessage
  {
    match g
    case NoClass => NoClassMessage
    case Password(p) => p
  }

  /**
   * `generate_password`: builds the alphabet step by step; with no class
   * selected it yields the sentinel; otherwise draw `i` picks character
   * `draws[i]` of the alphabet (the index `secrets.choice` would choose).
   */
  method GeneratePassword(length: nat, classes: Classes, draws: seq<nat>) returns (g: Generated)
    requires |draws| == length
    requires Alphabet(classes) != "" ==> forall i :: 0 <= i < |draws| ==> draws[i] < |Alphabet(classes)|
    ensures g.NoClass? <==> NoneSelected(classes)
    ensures g.Password? ==> |g.text| == length
    ensures g.Password? ==> forall i :: 0 <= i < length ==> g.text[i] == Alphabet(classes)[draws[i]]
    ensures g.Password? ==> forall ch :: ch in g.text ==> InClasses(classes, ch)
    ensures Shown(g) == NoClassMessage <==> NoneSelected(classes)
  {
    var characters := "";
    if classes.upper { characters := characters + Uppercase; }
    if classes.lower { characters := characters + Lowercase; }
    if classes.digits { characters := characters + Digits; }
    if classes.symbols { characters := characters + Punctuation; }
    assert characters == Alphabet(classes);
    AlphabetMembers(classes);
    if characters == "" {
      return NoClass;
    }
    var password := seq(length, i requires 0 <= i < length => characters[draws[i]]);
    forall ch | ch in password ensures InClasses(classes, ch) {
      var i :| 0 <= i < length && password[i] == ch;
    }
    SentinelIsNotAPassword(classes, password);
    g := Password(password);
  }
}
