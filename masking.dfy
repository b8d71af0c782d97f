/** The redaction rules for the five Indian identifier formats: PAN, Aadhaar,
    mobile number, e-mail address and GSTIN. Each rule checks a fixed pattern
    and, on a match, splices a redaction into fixed positions; a value that
    does not match yields ("", false). Strings are sequences of Unicode
    scalar values; the one rule that works on UTF-8 bytes (e-mail) says so. */
module Masking {

  /** The (string, bool) pair every rule returns. */
  datatype Masked = Masked(value: string, ok: bool)

  const Rejected := Masked("", false)

  /** The type names the dispatcher recognises, in the order detection tries them. */
  const TypeOrder: seq<string> := ["pan", "aadhaar", "phone", "email", "gstin"]

  predicate IsDigit(c: char) { '0' <= c <= '9' }
  predicate IsUpper(c: char) { 'A' <= c <= 'Z' }

  predicate AllDigits(s: string) {
    forall i :: 0 <= i < |s| ==> IsDigit(s[i])
  }

  // ---------------------------------------------------------------- helpers

  /** `s` with every occurrence of `c` deleted (strings.ReplaceAll(s, c, "")). */
  function Without(s: string, c: char): (r: string)
    ensures |r| <= |s|
    ensures c !in r
    ensures forall x :: x in r ==> x in s
    ensures c !in s ==> r == s
  {
    if s == [] then []
    else if s[0] == c then Without(s[1..], c)
    else [s[0]] + Without(s[1..], c)
  }

  /** The decimal digits of `s`, in order. */
  function Digits(s: string): (r: string)
    ensures |r| <= |s|
    ensures AllDigits(r)
  {
    if s == [] then []
    else if IsDigit(s[0]) then [s[0]] + Digits(s[1..])
    else Digits(s[1..])
  }

  /** Number of occurrences of `c` in `s`. */
  function Count(s: string, c: char): (n: nat)
    ensures n <= |s|
  {
    if s == [] then 0 else (if s[0] == c then 1 else 0) + Count(s[1..], c)
  }

  /** Position of the first `c` in `s`. */
  function IndexOf(s: string, c: char): (i: nat)
    requires c in s
    ensures i < |s| && s[i] == c && c !in s[..i]
  {
    if s[0] == c then 0
    else
      assert c in s[1..];
      1 + IndexOf(s[1..], c)
  }

  /** Number of bytes of the UTF-8 encoding of `c`. */
  function Utf8Length(c: char): (n: nat)
    ensures 1 <= n <= 4
    ensures n == 1 <==> c as int < 0x80
    ensures n == 2 <==> 0x80 <= c as int < 0x800
    ensures n == 3 <==> 0x800 <= c as int < 0x10000
    ensures n == 4 <==> 0x10000 <= c as int
  {
    if c as int < 0x80 then 1
    else if c as int < 0x800 then 2
    else if c as int < 0x10000 then 3
    else 4
  }

  /** Length in bytes of the UTF-8 encoding of `s` (what Go's len reports). */
  function ByteLength(s: string): (n: nat)
    ensures |s| <= n <= 4 * |s|
    ensures (forall i :: 0 <= i < |s| ==> s[i] as int < 0x80) ==> n == |s|
    ensures (exists i :: 0 <= i < |s| && s[i] as int >= 0x80) ==> n > |s|
  {
    if s == [] then 0 else Utf8Length(s[0]) + ByteLength(s[1..])
  }

  /** The code point whose value is the first UTF-8 byte of `c`: what Go's
      `string(s[0])` yields, since it converts that byte to a rune. */
  function LeadByte(c: char): (b: char)
    ensures b as int < 0x100
    ensures c as int < 0x80 ==> b == c
    ensures 0x80 <= c as int < 0x800 ==> b as int == 0xC0 + c as int / 0x40 && 0xC2 <= b as int < 0xE0
    ensures 0x800 <= c as int < 0x10000 ==> b as int == 0xE0 + c as int / 0x1000 && 0xE0 <= b as int < 0xF0
    ensures 0x10000 <= c as int ==> b as int == 0xF0 + c as int / 0x40000 && 0xF0 <= b as int <= 0xF4
  {
    var n := c as int;
    if n < 0x80 then c
    else if n < 0x800 then (0xC0 + n / 0x40) as char
    else if n < 0x10000 then (0xE0 + n / 0x1000) as char
    else (0xF0 + n / 0x40000) as char
  }

  // ------------------------------------------------------------------- PAN

  /** `^[A-Z]{5}[0-9]{4}[A-Z]$` */
  predicate IsPAN(s: string) {
    && |s| == 10
    && (forall i :: 0 <= i < 5 ==> IsUpper(s[i]))
    && (forall i :: 5 <= i < 9 ==> IsDigit(s[i]))
    && IsUpper(s[9])
  }

  /** Keeps the first two letters and the last five characters of a PAN and
      writes XXX over letters 3 to 5. */
  function MaskPAN(pan: string): (r: Masked)
    ensures r.ok <==> IsPAN(pan)
    ensures !r.ok ==> r == Rejected
    ensures r.ok ==> |r.value| == |pan| == 10
    ensures r.ok ==> forall i :: 0 <= i < 10 ==> r.value[i] == (if 2 <= i < 5 then 'X' else pan[i])
  {
    if IsPAN(pan) then Masked(pan[..2] + "XXX" + pan[5..], true) else Rejected
  }

  // --------------------------------------------------------------- Aadhaar

  /** Deletes dashes and spaces, requires twelve digits, and keeps only the
      last four behind a fixed XXXX-XXXX- prefix. */
  function MaskAadhaar(aadhaar: string): (r: Masked)
    ensures !r.ok ==> r == Rejected
    ensures r.ok ==> |r.value| == 14 && r.value[..10] == "XXXX-XXXX-"
  {
    var digits := Without(Without(aadhaar, '-'), ' ');
    if |digits| == 12 && AllDigits(digits) then Masked("XXXX-XXXX-" + digits[8..], true)
    else Rejected
  }

  /** Only digits, dashes and spaces. */
  predicate AadhaarAlphabet(s: string) {
    forall i :: 0 <= i < |s| ==> IsDigit(s[i]) || s[i] == '-' || s[i] == ' '
  }

  // ----------------------------------------------------------------- phone

  /** Deletes spaces, requires ten digits starting with 6 to 9, and writes
      five stars over digits 3 to 7. */
  function MaskPhone(phone: string): (r: Masked)
    ensures !r.ok ==> r == Rejected
    ensures r.ok ==> |r.value| == 10 && r.value[2..7] == "*****"
  {
    var digits := Without(phone, ' ');
    if |digits| == 10 && '6' <= digits[0] <= '9' && AllDigits(digits) then
      Masked(digits[..2] + "*****" + digits[7..], true)
    else Rejected
  }

  /** Only digits and spaces. */
  predicate PhoneAlphabet(s: string) {
    forall i :: 0 <= i < |s| ==> IsDigit(s[i]) || s[i] == ' '
  }

  // ---------------------------------------------------------------- e-mail

  /** Splits at '@' (there must be exactly one), requires a local part of at
      least two BYTES, and keeps its first byte followed by `***@` and the
      domain. */
  function MaskEmail(email: string): (r: Masked)
    ensures !r.ok ==> r == Rejected
    ensures r.ok ==> Count(email, '@') == 1
    ensures r.ok ==> |r.value| >= 5 && r.value[1..5] == "***@"
  {
    if Count(email, '@') != 1 then Rejected
    else
      assert '@' in email by { CountPositive(email, '@'); }
      var at := IndexOf(email, '@');
      var local, domain := email[..at], email[at + 1..];
      if ByteLength(local) < 2 then Rejected
      else Masked([LeadByte(local[0])] + "***@" + domain, true)
  }

  // ----------------------------------------------------------------- GSTIN

  /** `^[0-9]{2}[A-Z]{5}[0-9]{4}[A-Z]{1}[1-9A-Z]{1}Z[0-9A-Z]{1}$` */
  predicate IsGSTIN(s: string) {
    && |s| == 15
    && IsDigit(s[0]) && IsDigit(s[1])
    && (forall i :: 2 <= i < 7 ==> IsUpper(s[i]))
    && (forall i :: 7 <= i < 11 ==> IsDigit(s[i]))
    && IsUpper(s[11])
    && (('1' <= s[12] <= '9') || IsUpper(s[12]))
    && s[13] == 'Z'
    && (IsDigit(s[14]) || IsUpper(s[14]))
  }

  /** Keeps characters 1 to 5 and 11 to 15 of a GSTIN, with five stars between. */
  function MaskGSTIN(gstin: string): (r: Masked)
    ensures r.ok <==> IsGSTIN(gstin)
    ensures !r.ok ==> r == Rejected
    ensures r.ok ==> |r.value| == |gstin| == 15
    ensures r.ok ==> forall i :: 0 <= i < 15 ==> r.value[i] == (if 5 <= i < 10 then '*' else gstin[i])
  {
    if IsGSTIN(gstin) then Masked(gstin[..5] + "*****" + gstin[10..], true) else Rejected
  }

  // ------------------------------------------------------------- dispatch

  /** Lower case as far as the five ASCII type names can tell: ASCII letters,
      plus the two code points whose Unicode lower case is an ASCII letter
      (U+0130, dotted capital I, and U+212A, the Kelvin sign). Every other
      code point lower-cases to a code point outside ASCII, so leaving it as
      it is changes no comparison with a type name. */
  function ToLowerChar(c: char): (l: char)
    ensures !('A' <= l <= 'Z')
    ensures 'A' <= c <= 'Z' ==> l == (c as int + 32) as char
    ensures c == '\U{0130}' ==> l == 'i'
    ensures c == '\U{212A}' ==> l == 'k'
    ensures !('A' <= c <= 'Z') && c != '\U{0130}' && c != '\U{212A}' ==> l == c
  {
    if 'A' <= c <= 'Z' then (c as int + 32) as char
    else if c == '\U{0130}' then 'i'
    else if c == '\U{212A}' then 'k'
    else c
  }

  function ToLower(s: string): (r: string)
    ensures |r| == |s| && forall i :: 0 <= i < |s| ==> r[i] == ToLowerChar(s[i])
  {
    seq(|s|, i requires 0 <= i < |s| => ToLowerChar(s[i]))
  }

  /** Selects a rule by its case-insensitive type name. */
  function ApplyMask(t: string, v: string): (r: Masked)
    ensures ToLower(t) !in TypeOrder ==> r == Rejected
    ensures !r.ok ==> r == Rejected
    ensures r.ok ==> |r.value| >= 5
  {
    var name := ToLower(t);
    if name == "pan" then MaskPAN(v)
    else if name == "aadhaar" then MaskAadhaar(v)
    else if name == "phone" then MaskPhone(v)
    else if name == "email" then MaskEmail(v)
    else if name == "gstin" then MaskGSTIN(v)
    else Rejected
  }

  /** The first type, in the order pan, aadhaar, phone, email, gstin, whose
      rule accepts `value`, or "" when none does. */
  function DetectType(value: string): (t: string)
    ensures t == "" || t in TypeOrder
    ensures t != "" ==> ApplyMask(t, value).ok
  {
    ApplyMaskByName(value);
    if MaskPAN(value).ok then "pan"
    else if MaskAadhaar(value).ok then "aadhaar"
    else if MaskPhone(value).ok then "phone"
    else if MaskEmail(value).ok then "email"
    else if MaskGSTIN(value).ok then "gstin"
    else ""
  }

  // ---------------------------------------------------------------- lemmas

  lemma CountPositive(s: string, c: char)
    requires Count(s, c) > 0
    ensures c in s
  {
    if s[0] != c {
      CountPositive(s[1..], c);
    }
  }

  /** A string of lower-case ASCII letters is its own lower case. */
  lemma LowerCaseIsFixed(s: string)
    requires forall i :: 0 <= i < |s| ==> 'a' <= s[i] <= 'z'
    ensures ToLower(s) == s
  {
  }

  lemma TypeNamesAreLowerCase()
    ensures ToLower("pan") == "pan" && ToLower("aadhaar") == "aadhaar"
    ensures ToLower("phone") == "phone" && ToLower("email") == "email"
    ensures ToLower("gstin") == "gstin"
  {
    LowerCaseIsFixed("pan");
    LowerCaseIsFixed("aadhaar");
    LowerCaseIsFixed("phone");
    LowerCaseIsFixed("email");
    LowerCaseIsFixed("gstin");
  }

  /** Each listed type name selects its own rule. */
  lemma ApplyMaskByName(v: string)
    ensures ApplyMask("pan", v) == MaskPAN(v)
    ensures ApplyMask("aadhaar", v) == MaskAadhaar(v)
    ensures ApplyMask("phone", v) == MaskPhone(v)
    ensures ApplyMask("email", v) == MaskEmail(v)
    ensures ApplyMask("gstin", v) == MaskGSTIN(v)
  {
    TypeNamesAreLowerCase();
  }

  /** `t` spells `name` with some of its letters in upper case. */
  predicate SameUpToAsciiCase(t: string, name: string) {
    && |t| == |name|
    && forall i :: 0 <= i < |t| ==> t[i] == name[i] || (IsUpper(t[i]) && t[i] as int + 32 == name[i] as int)
  }

  /** A type name written in any mix of upper and lower case selects the
      same rule as the name itself. */
  lemma ApplyMaskAnyCase(t: string, name: string, v: string)
    requires name in TypeOrder && SameUpToAsciiCase(t, name)
    ensures ApplyMask(t, v) == ApplyMask(name, v)
    ensures name == "pan" ==> ApplyMask(t, v) == MaskPAN(v)
    ensures name == "gstin" ==> ApplyMask(t, v) == MaskGSTIN(v)
  {
    TypeNamesAreLowerCase();
    assert ToLower(name) == name;
    forall i | 0 <= i < |t|
      ensures ToLower(t)[i] == name[i]
    {
      if t[i] != name[i] {
        assert (t[i] as int + 32) as char == name[i];
      }
    }
    assert ToLower(t) == name;
    ApplyMaskByName(v);
  }

  /** Detection answers the first type name, in detection order, whose rule
      accepts, and "" exactly when no rule accepts. */
  lemma DetectTypeIsFirstAccepting(v: string)
    ensures DetectType(v) == "" <==>
      && !ApplyMask("pan", v).ok && !ApplyMask("aadhaar", v).ok && !ApplyMask("phone", v).ok
      && !ApplyMask("email", v).ok && !ApplyMask("gstin", v).ok
    ensures DetectType(v) == "aadhaar" ==> !ApplyMask("pan", v).ok
    ensures DetectType(v) == "phone" ==> !ApplyMask("pan", v).ok && !ApplyMask("aadhaar", v).ok
    ensures DetectType(v) == "email" ==>
      !ApplyMask("pan", v).ok && !ApplyMask("aadhaar", v).ok && !ApplyMask("phone", v).ok
    ensures DetectType(v) == "gstin" ==>
      && !ApplyMask("pan", v).ok && !ApplyMask("aadhaar", v).ok && !ApplyMask("phone", v).ok
      && !ApplyMask("email", v).ok
  {
    ApplyMaskByName(v);
  }

  // ------------------------------------------- characterisations of the rules

  /** Deleting dashes and then spaces leaves exactly the digits when the value
      has no other character, and leaves a non-digit otherwise. */
  lemma {:induction false} StripDashesAndSpaces(s: string)
    ensures AadhaarAlphabet(s) ==> Without(Without(s, '-'), ' ') == Digits(s)
    ensures !AadhaarAlphabet(s) ==> !AllDigits(Without(Without(s, '-'), ' '))
  {
    if s != [] {
      var c, t := s[0], s[1..];
      StripDashesAndSpaces(t);
      assert AadhaarAlphabet(s) ==> AadhaarAlphabet(t) by {
        if AadhaarAlphabet(s) {
          forall i | 0 <= i < |t| ensures IsDigit(t[i]) || t[i] == '-' || t[i] == ' ' {
            assert t[i] == s[i + 1];
          }
        }
      }
      assert !AadhaarAlphabet(s) && (IsDigit(c) || c == '-' || c == ' ') ==> !AadhaarAlphabet(t) by {
        if !AadhaarAlphabet(s) && (IsDigit(c) || c == '-' || c == ' ') {
          var i :| 0 <= i < |s| && !(IsDigit(s[i]) || s[i] == '-' || s[i] == ' ');
          assert i > 0 && t[i - 1] == s[i];
        }
      }
      if c == '-' {
        assert Without(s, '-') == Without(t, '-');
      } else {
        assert Without(s, '-') == [c] + Without(t, '-');
        var w := Without(t, '-');
        assert ([c] + w)[1..] == w;
        if c == ' ' {
          assert Without([c] + w, ' ') == Without(w, ' ');
        } else {
          assert Without([c] + w, ' ') == [c] + Without(w, ' ');
          assert ([c] + Without(w, ' '))[0] == c;
          if !AllDigits(Without(w, ' ')) {
            var k :| 0 <= k < |Without(w, ' ')| && !IsDigit(Without(w, ' ')[k]);
            assert ([c] + Without(w, ' '))[k + 1] == Without(w, ' ')[k];
          }
        }
      }
    }
  }

  /** The Aadhaar rule accepts exactly the values made of digits, dashes and
      spaces holding twelve digits, and keeps the last four of them. */
  lemma AadhaarAccepts(s: string)
    ensures MaskAadhaar(s).ok <==> AadhaarAlphabet(s) && |Digits(s)| == 12
    ensures MaskAadhaar(s).ok ==> MaskAadhaar(s).value == "XXXX-XXXX-" + Digits(s)[8..]
  {
    StripDashesAndSpaces(s);
  }

  /** Deleting spaces leaves exactly the digits when the value has no other
      character, and leaves a non-digit otherwise. */
  lemma {:induction false} StripSpaces(s: string)
    ensures PhoneAlphabet(s) ==> Without(s, ' ') == Digits(s)
    ensures !PhoneAlphabet(s) ==> !AllDigits(Without(s, ' '))
  {
    if s != [] {
      var c, t := s[0], s[1..];
      StripSpaces(t);
      assert PhoneAlphabet(s) ==> PhoneAlphabet(t) by {
        if PhoneAlphabet(s) {
          forall i | 0 <= i < |t| ensures IsDigit(t[i]) || t[i] == ' ' {
            assert t[i] == s[i + 1];
          }
        }
      }
      assert !PhoneAlphabet(s) && (IsDigit(c) || c == ' ') ==> !PhoneAlphabet(t) by {
        if !PhoneAlphabet(s) && (IsDigit(c) || c == ' ') {
          var i :| 0 <= i < |s| && !(IsDigit(s[i]) || s[i] == ' ');
          assert i > 0 && t[i - 1] == s[i];
        }
      }
      var w := Without(t, ' ');
      if c == ' ' {
        assert Without(s, ' ') == w;
      } else {
        assert Without(s, ' ') == [c] + w;
        assert ([c] + w)[0] == c;
        if !AllDigits(w) {
          var k :| 0 <= k < |w| && !IsDigit(w[k]);
          assert ([c] + w)[k + 1] == w[k];
        }
      }
    }
  }

  /** The phone rule accepts exactly the values made of digits and spaces
      holding ten digits of which the first is 6 to 9, and keeps the first two
      and the last three of them. */
  lemma PhoneAccepts(s: string)
    ensures MaskPhone(s).ok <==> PhoneAlphabet(s) && |Digits(s)| == 10 && '6' <= Digits(s)[0] <= '9'
    ensures MaskPhone(s).ok ==> MaskPhone(s).value == Digits(s)[..2] + "*****" + Digits(s)[7..]
  {
    StripSpaces(s);
  }

  lemma {:induction false} CountAppend(a: string, b: string, c: char)
    ensures Count(a + b, c) == Count(a, c) + Count(b, c)
  {
    if a != [] {
      assert (a + b)[0] == a[0] && (a + b)[1..] == a[1..] + b;
      CountAppend(a[1..], b, c);
    } else {
      assert a + b == b;
    }
  }

  lemma {:induction false} CountAbsent(s: string, c: char)
    requires c !in s
    ensures Count(s, c) == 0
  {
    if s != [] {
      assert c !in s[1..];
      CountAbsent(s[1..], c);
    }
  }

  /** Splitting `local@domain` at its only '@' gives back the two parts: the
      rule keeps the domain verbatim and the first byte of the local part. */
  lemma EmailParts(local: string, domain: string)
    requires '@' !in local && '@' !in domain
    ensures MaskEmail(local + "@" + domain) ==
      if ByteLength(local) >= 2 then Masked([LeadByte(local[0])] + "***@" + domain, true)
      else Rejected
  {
    var e := local + "@" + domain;
    CountAppend(local, "@", '@');
    CountAppend(local + "@", domain, '@');
    CountAbsent(local, '@');
    CountAbsent(domain, '@');
    assert e[|local|] == '@';
    var at := IndexOf(e, '@');
    assert at == |local|;
    assert e[..at] == local && e[at + 1..] == domain;
  }

  /** A local part is long enough when it has two characters, or one that
      takes more than one byte in UTF-8. */
  lemma {:induction false} ByteLengthAtLeastTwo(s: string)
    ensures ByteLength(s) >= 2 <==> |s| >= 2 || (|s| == 1 && s[0] as int >= 0x80)
  {
    if |s| >= 2 {
      assert ByteLength(s) >= Utf8Length(s[0]) + Utf8Length(s[1]) by {
        assert ByteLength(s) == Utf8Length(s[0]) + ByteLength(s[1..]);
        assert ByteLength(s[1..]) == Utf8Length(s[1]) + ByteLength(s[2..]);
      }
    } else if |s| == 1 {
      assert ByteLength(s) == Utf8Length(s[0]) + ByteLength(s[1..]);
    }
  }

  // -------------------------------------------- what masking does twice

  /** A masked PAN is still a PAN (XXX are upper-case letters), and masking
      it again changes nothing. */
  lemma MaskPANIdempotent(s: string)
    requires MaskPAN(s).ok
    ensures MaskPAN(MaskPAN(s).value) == MaskPAN(s)
  {
    var m := MaskPAN(s).value;
    assert IsPAN(m) by {
      assert forall i :: 0 <= i < 5 ==> IsUpper(m[i]);
      assert forall i :: 5 <= i < 9 ==> IsDigit(m[i]);
    }
    var m2 := MaskPAN(m).value;
    assert forall i :: 0 <= i < 10 ==> m2[i] == m[i];
  }

  /** A masked e-mail address whose first character is ASCII is masked to
      itself. */
  lemma MaskEmailIdempotent(e: string)
    requires MaskEmail(e).ok && e[0] as int < 0x80
    ensures MaskEmail(MaskEmail(e).value) == MaskEmail(e)
  {
    assert '@' in e by { CountPositive(e, '@'); }
    var at := IndexOf(e, '@');
    var local, domain := e[..at], e[at + 1..];
    assert e == local + "@" + domain;
    assert '@' !in domain by {
      CountAppend(local, "@", '@');
      CountAppend(local + "@", domain, '@');
      if '@' in domain {
        var k :| 0 <= k < |domain| && domain[k] == '@';
        CountSplit(domain, k);
      }
    }
    EmailParts(local, domain);
    ByteLengthAtLeastTwo(local);
    assert local[0] == e[0];
    var head := [e[0]] + "***";
    assert MaskEmail(e).value == head + "@" + domain;
    assert ByteLength(head) >= 2 by { ByteLengthAtLeastTwo(head); }
    EmailParts(head, domain);
  }

  lemma CountSplit(s: string, k: nat)
    requires k < |s|
    ensures Count(s, s[k]) > 0
  {
    assert s == s[..k] + s[k..];
    CountAppend(s[..k], s[k..], s[k]);
  }

  /** A masked Aadhaar, phone number or GSTIN is not accepted again by its
      rule: the redaction characters fall outside the pattern. */
  lemma RedactionIsNotReaccepted(s: string)
    ensures MaskAadhaar(s).ok ==> !MaskAadhaar(MaskAadhaar(s).value).ok
    ensures MaskPhone(s).ok ==> !MaskPhone(MaskPhone(s).value).ok
    ensures MaskGSTIN(s).ok ==> !MaskGSTIN(MaskGSTIN(s).value).ok
  {
    if MaskAadhaar(s).ok {
      var m := MaskAadhaar(s).value;
      assert m[0] == 'X';
      AadhaarAccepts(m);
    }
    if MaskPhone(s).ok {
      var m := MaskPhone(s).value;
      assert m[2] == '*';
      PhoneAccepts(m);
    }
    if MaskGSTIN(s).ok {
      var m := MaskGSTIN(s).value;
      assert m[5] == '*';
    }
  }

  // -------------------------------------------------------- dispatch lemmas

  lemma ToLowerIdempotent(s: string)
    ensures ToLower(ToLower(s)) == ToLower(s)
  {
  }

  /** The type name is matched case-insensitively. */
  lemma ApplyMaskIgnoresCase(t: string, v: string)
    ensures ApplyMask(ToLower(t), v) == ApplyMask(t, v)
  {
    ToLowerIdempotent(t);
  }

  /** No value is accepted by two rules, so the detection order never
      decides between two accepting types. */
  lemma AtMostOneRuleAccepts(v: string)
    ensures AcceptingRules(v) <= 1
  {
    PANExcludesOthers(v);
    DigitRulesExcludeOthers(v);
    EmailExcludesGSTIN(v);
  }

  lemma PANExcludesOthers(v: string)
    ensures MaskPAN(v).ok ==>
      !MaskAadhaar(v).ok && !MaskPhone(v).ok && !MaskEmail(v).ok && !MaskGSTIN(v).ok
  {
    if MaskPAN(v).ok {
      assert IsUpper(v[0]);
      AadhaarAccepts(v);
      PhoneAccepts(v);
      NoAtNoEmail(v);
    }
  }

  lemma DigitRulesExcludeOthers(v: string)
    ensures MaskAadhaar(v).ok ==> !MaskPhone(v).ok && !MaskEmail(v).ok && !MaskGSTIN(v).ok
    ensures MaskPhone(v).ok ==> !MaskEmail(v).ok && !MaskGSTIN(v).ok
  {
    AadhaarAccepts(v);
    PhoneAccepts(v);
    if MaskAadhaar(v).ok || MaskPhone(v).ok {
      assert AadhaarAlphabet(v);
      NoAtNoEmail(v);
      if |v| == 15 {
        assert !IsUpper(v[2]);
      }
    }
  }

  lemma EmailExcludesGSTIN(v: string)
    ensures MaskGSTIN(v).ok ==> !MaskEmail(v).ok
  {
    if MaskGSTIN(v).ok {
      NoAtNoEmail(v);
    }
  }

  /** A value without '@' is never an e-mail address. */
  lemma NoAtNoEmail(v: string)
    requires forall i :: 0 <= i < |v| ==> v[i] != '@'
    ensures !MaskEmail(v).ok
  {
    CountAbsent(v, '@');
  }

  /** How many of the five rules accept `v`. */
  function AcceptingRules(v: string): (n: nat)
    ensures n <= 5
    ensures n == 0 <==> DetectType(v) == ""
  {
    (if MaskPAN(v).ok then 1 else 0) + (if MaskAadhaar(v).ok then 1 else 0)
    + (if MaskPhone(v).ok then 1 else 0) + (if MaskEmail(v).ok then 1 else 0)
    + (if MaskGSTIN(v).ok then 1 else 0)
  }

  /** A masked value is detected as the type it was masked as, when that
      rule accepts its own output. */
  lemma MaskedValuesAreDetected(s: string)
    ensures MaskPAN(s).ok ==> DetectType(MaskPAN(s).value) == "pan"
    ensures MaskEmail(s).ok && s[0] as int < 0x80 ==> DetectType(MaskEmail(s).value) == "email"
  {
    if MaskPAN(s).ok {
      MaskPANIdempotent(s);
    }
    if MaskEmail(s).ok && s[0] as int < 0x80 {
      MaskEmailIdempotent(s);
      AtMostOneRuleAccepts(MaskEmail(s).value);
    }
  }

  /** Go's len counts bytes: an e-mail address whose local part is the single
      character é (two bytes in UTF-8) passes the length check, and what is
      kept is its first byte, 0xC3, read back as the code point Ã. */
  lemma EmailKeepsFirstByte()
    ensures MaskEmail("\U{E9}@x.in") == Masked("\U{C3}***@x.in", true)
  {
    var local, domain := "\U{E9}", "x.in";
    assert '@' !in local && '@' !in domain;
    assert ByteLength(local) == 2;
    assert LeadByte(local[0]) == '\U{C3}';
    EmailParts(local, domain);
    assert local + "@" + domain == "\U{E9}@x.in";
    assert [LeadByte(local[0])] + "***@" + domain == "\U{C3}***@x.in";
  }
}
