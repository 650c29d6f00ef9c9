/**
 * The first step of `analyze`: normalise the phone number, derive its local
 * variant and build the search query that asks for either form.
 */
module Phone {
  import opened Wrappers
  import opened Strings

  /** The Mongolian country calling code. */
  const CountryCode: string := "+976"

  /** `phone_number.strip().replace(" ", "").replace("-", "")`: no space and
      no hyphen is left, every other character of the trimmed input is kept
      as often as it occurs, and nothing grows. */
  function Normalize(raw: string): (phone: string)
    ensures ' ' !in phone && '-' !in phone
    ensures |phone| <= |raw|
    ensures forall c :: c != ' ' && c != '-' ==> multiset(phone)[c] == multiset(Strip(raw))[c]
  {
    var noSpace := RemoveChar(Strip(raw), ' ');
    assert multiset(noSpace)[' '] == 0;
    RemoveChar(noSpace, '-')
  }

  /** `phone.startswith("+976")`. */
  predicate HasCountryCode(phone: string) {
    |phone| >= |CountryCode| && phone[..|CountryCode|] == CountryCode
  }

  /** `local8`: with the country code the rest of the number after it,
      otherwise the number unchanged. */
  function LocalVariant(phone: string): (local: string)
    ensures HasCountryCode(phone) ==> phone == CountryCode + local
    ensures !HasCountryCode(phone) ==> local == phone
  {
    if HasCountryCode(phone) then phone[|CountryCode|..] else phone
  }

  /** The local variant of a normalised number holds no space and no hyphen either. */
  lemma LocalVariantClean(raw: string)
    ensures var local := LocalVariant(Normalize(raw)); ' ' !in local && '-' !in local
  {
    var phone := Normalize(raw);
    if HasCountryCode(phone) {
      assert forall c :: c in LocalVariant(phone) ==> c in phone;
    }
  }

  /** The quoted separator between the two forms of the query. */
  const OrSeparator: string := "\" OR \""

  /** The search query `"<phone>" OR "<local>"`: it opens with the quoted
      number and closes with the quoted local form. */
  function Query(phone: string, local: string): (q: string)
    ensures |q| == |phone| + |local| + 8
    ensures q[..|phone| + 2] == "\"" + phone + "\""
    ensures q[|phone| + 2..|phone| + 6] == " OR "
    ensures q[|q| - |local| - 2..] == "\"" + local + "\""
  {
    "\"" + phone + OrSeparator + local + "\""
  }

  /** Reads the two quoted forms back out of a query. */
  function SplitQuery(q: string): Option<(string, string)> {
    if |q| < 2 || q[0] != '"' || q[|q| - 1] != '"' then None
    else
      var body := q[1..|q| - 1];
      var k := FirstIndexOf(body, '"');
      if k + |OrSeparator| <= |body| && body[k..k + |OrSeparator|] == OrSeparator
      then Some((body[..k], body[k + |OrSeparator|..]))
      else None
  }

  /** The query determines both of its forms: when the phone holds no double
      quote, reading the query back gives exactly the phone and the local form. */
  lemma QueryRoundTrip(phone: string, local: string)
    requires '"' !in phone
    ensures SplitQuery(Query(phone, local)) == Some((phone, local))
  {
    var q := Query(phone, local);
    var body := phone + OrSeparator + local;
    assert q == "\"" + body + "\"";
    assert q[1..|q| - 1] == body;
    assert body == phone + (OrSeparator + local);
    FirstIndexAfter(phone, OrSeparator + local, '"');
    assert body[..|phone|] == phone;
    assert body[|phone|..|phone| + |OrSeparator|] == OrSeparator;
    assert body[|phone| + |OrSeparator|..] == local;
  }

  /** A number written in three groups separated by spaces, or by hyphens,
      normalises to the groups run together. */
  lemma NormalizeJoinsGroups(a: string, b: string, c: string, x: char)
    requires x == ' ' || x == '-'
    requires ' ' !in a + b + c && '-' !in a + b + c
    requires a != [] && !IsWhitespace(a[0]) && c != [] && !IsWhitespace(c[|c| - 1])
    ensures Normalize(a + [x] + b + [x] + c) == a + b + c
  {
    var raw := a + [x] + b + [x] + c;
    assert raw[0] == a[0] && raw[|raw| - 1] == c[|c| - 1];
    assert Strip(raw) == raw;
    assert x !in a && x !in b && x !in c by {
      assert forall y :: y in a || y in b || y in c ==> y in a + b + c;
    }
    RemoveSeparators(a, b, c, x);
    if x == ' ' {
      RemoveCharAbsent(a + b + c, '-');
    } else {
      RemoveCharAbsent(raw, ' ');
    }
  }

  /** The worked example continued: the local variant of `+97688112233` is
      `88112233`, and the query names both. */
  lemma QueryExample(phone: string)
    requires phone == "+97688112233"
    ensures LocalVariant(phone) == "88112233"
    ensures Query(phone, LocalVariant(phone)) == "\"+97688112233\" OR \"88112233\""
  {
  }

  /** Deleting the separator of three separator-free parts joins the parts. */
  lemma RemoveSeparators(a: string, b: string, c: string, x: char)
    requires x !in a && x !in b && x !in c
    ensures RemoveChar(a + [x] + b + [x] + c, x) == a + b + c
  {
    var sep := [x];
    assert RemoveChar(sep, x) == [] by {
      assert sep[..0] == [];
    }
    RemoveCharAbsent(a, x);
    RemoveCharAbsent(b, x);
    RemoveCharAbsent(c, x);
    RemoveCharConcat(a, sep, x);
    var s1 := a + sep;
    assert RemoveChar(s1, x) == a;
    RemoveCharConcat(s1, b, x);
    var s2 := s1 + b;
    assert RemoveChar(s2, x) == a + b;
    RemoveCharConcat(s2, sep, x);
    var s3 := s2 + sep;
    assert RemoveChar(s3, x) == a + b;
    RemoveCharConcat(s3, c, x);
  }

  /** Deleting a character that does not occur changes nothing. */
  lemma {:induction false} RemoveCharAbsent(s: string, x: char)
    requires x !in s
    ensures RemoveChar(s, x) == s
    decreases |s|
  {
    if s != [] {
      assert x !in s[..|s| - 1];
      RemoveCharAbsent(s[..|s| - 1], x);
    }
  }
}
