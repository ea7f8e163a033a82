/** src/meshpipeline/application/signup_claims.py: the mailbox an address delivers to, for the
    purpose of the one-time grant. Case is folded for the ASCII letters. */
module Mailbox {

  import opened Text

  /** Where the last '@' is, or -1. */
  function LastAt(s: string): (k: int)
    ensures -1 <= k < |s|
    ensures k >= 0 ==> s[k] == '@'
    ensures forall i :: k < i < |s| ==> s[i] != '@'
  {
    if s == "" then -1
    else if s[|s| - 1] == '@' then |s| - 1
    else LastAt(s[..|s| - 1])
  }

  function BeforePlus(s: string): (r: string)
    ensures |r| <= |s| && r == s[..|r|] && '+' !in r
    ensures |r| < |s| ==> s[|r|] == '+'
  {
    if s == "" || s[0] == '+' then "" else
      var rest := BeforePlus(s[1..]);
      assert s == [s[0]] + s[1..];
      [s[0]] + rest
  }

  function WithoutDots(s: string): (r: string)
    ensures |r| <= |s| && '.' !in r
    ensures forall c :: c in r ==> c in s
    ensures '.' !in s ==> r == s
  {
    if s == "" then ""
    else
      var rest := WithoutDots(s[1..]);
      if s[0] == '.' then rest else [s[0]] + rest
  }

  predicate DotInsensitive(domain: string) {
    domain == "gmail.com" || domain == "googlemail.com"
  }

  function Normalized(email: string): string {
    Mail(Lower(Strip(email)))
  }

  function Mail(address: string): string {
    var at := LastAt(address);
    if at <= 0 then address
    else KeptLocal(address[..at], address[at + 1..]) + "@" + KeptDomain(address[at + 1..])
  }

  /** The local part with its tag, and its dots where the provider ignores them, removed. */
  function KeptLocal(local: string, domain: string): (kept: string)
    ensures '+' !in kept && |kept| <= |local|
    ensures DotInsensitive(domain) ==> '.' !in kept
    ensures !DotInsensitive(domain) && kept != "" ==> local != "" && kept[0] == local[0]
  {
    if DotInsensitive(domain) then WithoutDots(BeforePlus(local)) else BeforePlus(local)
  }

  function KeptDomain(domain: string): (kept: string)
    ensures |kept| <= |domain| && ('@' !in domain ==> '@' !in kept)
  {
    if DotInsensitive(domain) then "gmail.com" else domain
  }

  // ---- facts about the parts ----------------------------------------------------------------------

  lemma {:induction false} LastAtOf(local: string, domain: string)
    requires '@' !in domain
    ensures LastAt(local + "@" + domain) == |local|
  {
    var s := local + "@" + domain;
    assert s[|local|] == '@';
    assert s[|local| + 1..] == domain;
    assert forall i :: |local| < i < |s| ==> s[i] in s[|local| + 1..];
  }

  /** An address put together from its parts. */
  lemma MailOf(local: string, domain: string)
    requires local != "" && '@' !in domain
    ensures Mail(local + "@" + domain) == KeptLocal(local, domain) + "@" + KeptDomain(domain)
  {
    LastAtOf(local, domain);
    var s := local + "@" + domain;
    assert s[..|local|] == local && s[|local| + 1..] == domain;
  }

  /** An address taken apart at its last '@'. */
  lemma Parts(address: string) returns (local: string, domain: string)
    requires LastAt(address) > 0
    ensures address == local + "@" + domain && local != "" && '@' !in domain
    ensures local == address[..LastAt(address)] && domain == address[LastAt(address) + 1..]
  {
    local, domain := address[..LastAt(address)], address[LastAt(address) + 1..];
  }

  lemma {:induction false} DotsLowered(s: string)
    requires Lowered(s)
    ensures Lowered(WithoutDots(s))
  {
    if s != "" { DotsLowered(s[1..]); }
  }

  lemma KeptTwice(local: string, domain: string)
    ensures KeptLocal(KeptLocal(local, domain), KeptDomain(domain)) == KeptLocal(local, domain)
    ensures KeptDomain(KeptDomain(domain)) == KeptDomain(domain)
  {
    var kept := KeptLocal(local, domain);
    assert BeforePlus(kept) == kept;
  }

  lemma Ends(local: string, domain: string)
    ensures var s := local + "@" + domain;
            && s[0] == (if local == "" then '@' else local[0])
            && s[|s| - 1] == (if domain == "" then '@' else domain[|domain| - 1])
  {
  }

  lemma LoweredJoin(a: string, b: string)
    requires Lowered(a) && Lowered(b)
    ensures Lowered(a + "@" + b)
  {
  }

  lemma KeptLowered(local: string, domain: string)
    requires Lowered(local) && Lowered(domain)
    ensures Lowered(KeptLocal(local, domain) + "@" + KeptDomain(domain))
  {
    DotsLowered(BeforePlus(local));
    LoweredJoin(KeptLocal(local, domain), KeptDomain(domain));
  }

  lemma KeptTrimmed(local: string, domain: string)
    requires local != "" && Trimmed(local + "@" + domain)
    ensures Trimmed(KeptLocal(local, domain) + "@" + KeptDomain(domain))
       <==> (KeptLocal(local, domain) == "" || !IsSpace(KeptLocal(local, domain)[0]))
  {
    Ends(local, domain);
    Ends(KeptLocal(local, domain), KeptDomain(domain));
  }

  /** A finished mailbox that starts with no space stays as it is. */
  lemma MailFixpoint(local: string, domain: string)
    requires '@' !in domain
    ensures var mail := KeptLocal(local, domain) + "@" + KeptDomain(domain); Mail(mail) == mail
  {
    KeptTwice(local, domain);
    LastAtOf(KeptLocal(local, domain), KeptDomain(domain));
    if KeptLocal(local, domain) != "" {
      MailOf(KeptLocal(local, domain), KeptDomain(domain));
    }
  }

  lemma MailNoLonger(address: string)
    ensures |Mail(address)| <= |address|
  {
  }

  /** Exactly when normalising again could change the result: a dot-insensitive provider, and a
      local part that begins with a space once its dots are gone. */
  predicate HidesSpace(email: string) {
    var address := Lower(Strip(email));
    var at := LastAt(address);
    at > 0 && var kept := KeptLocal(address[..at], address[at + 1..]); kept != "" && IsSpace(kept[0])
  }

  /** Normalisation is idempotent exactly on the addresses that hide no space. */
  lemma NormalizedTwice(email: string)
    ensures Normalized(Normalized(email)) == Normalized(email) <==> !HidesSpace(email)
  {
    var address := Lower(Strip(email));
    LowerOfStrip(email);
    if LastAt(address) <= 0 {
      StripTrimmed(address);
      LowerFixes(address);
    } else {
      var local, domain := Parts(address);
      var mail := KeptLocal(local, domain) + "@" + KeptDomain(domain);
      assert Mail(address) == mail;
      KeptTrimmed(local, domain);
      KeptLowered(local, domain);
      if HidesSpace(email) {
        StripShortens(mail);
        MailNoLonger(Lower(Strip(mail)));
      } else {
        StripTrimmed(mail);
        LowerFixes(mail);
        MailFixpoint(local, domain);
      }
    }
  }

  /** An address with its parts given. */
  lemma {:induction false} NormalizedOf(email: string, local: string, domain: string)
    requires Strip(email) == local + "@" + domain && Lowered(Strip(email)) && local != "" && '@' !in domain
    ensures Normalized(email) == KeptLocal(local, domain) + "@" + KeptDomain(domain)
    ensures HidesSpace(email) <==> KeptLocal(local, domain) != "" && IsSpace(KeptLocal(local, domain)[0])
  {
    LowerFixes(Strip(email));
    MailOf(local, domain);
    LastAtOf(local, domain);
    assert Strip(email)[..|local|] == local && Strip(email)[|local| + 1..] == domain;
  }

  lemma LettersKept(domain: string)
    requires DotInsensitive(domain)
    ensures KeptLocal("a", domain) == "a" && KeptLocal(". a", domain) == " a"
  {
    assert BeforePlus("a") == "a" && WithoutDots("a") == "a";
    assert ". a"[1..] == " a" && " a"[1..] == "a";
    assert BeforePlus(" a") == " a" && WithoutDots(" a") == " a";
    assert BeforePlus(". a") == ". a";
  }

  /** What is used of the provider's name. */
  predicate Ordinary(domain: string) {
    domain != "" && Lowered(domain) && '@' !in domain && !IsSpace(domain[|domain| - 1])
  }

  lemma Parted(local: string, domain: string)
    requires Ordinary(domain) && local != "" && Lowered(local)
    ensures var email := local + "@" + domain;
      && Lowered(email) && (Trimmed(email) <==> !IsSpace(local[0]))
      && (!IsSpace(local[0]) ==> Strip(email) == email)
  {
    Ends(local, domain);
    LoweredJoin(local, domain);
    if !IsSpace(local[0]) { StripTrimmed(local + "@" + domain); }
  }

  lemma LeadingSpace(mail: string)
    requires mail != "" && IsSpace(mail[0])
    ensures Normalized(mail) == Normalized(mail[1..])
  {
    assert Strip(mail) == Strip(mail[1..]);
  }

  lemma PlainA(domain: string)
    requires DotInsensitive(domain) && KeptDomain(domain) == domain && Ordinary(domain)
    ensures Normalized("a" + "@" + domain) == "a" + "@" + domain
  {
    LettersKept(domain);
    Parted("a", domain);
    NormalizedOf("a" + "@" + domain, "a", domain);
  }

  lemma SpaceStripped(domain: string, mail: string)
    requires DotInsensitive(domain) && KeptDomain(domain) == domain && Ordinary(domain) && mail == " a" + "@" + domain
    ensures Normalized(mail) == "a" + "@" + domain
  {
    PlainA(domain);
    LeadingSpace(mail);
    assert mail[1..] == "a" + "@" + domain;
  }

  /** Addresses that do, at a provider that ignores dots: the mailbox of `. a` begins with a space, which
      is trimmed the next time. */
  lemma NormalizedAgainMoves(domain: string, email: string)
    requires DotInsensitive(domain) && KeptDomain(domain) == domain && Ordinary(domain)
    requires email == ". a" + "@" + domain
    ensures HidesSpace(email) && Normalized(email) == " a" + "@" + domain
    ensures Normalized(Normalized(email)) == "a" + "@" + domain
  {
    LettersKept(domain);
    Parted(". a", domain);
    NormalizedOf(email, ". a", domain);
    SpaceStripped(domain, " a" + "@" + domain);
  }

  /** Such a provider. */
  lemma GmailIgnoresDots()
    ensures var domain := "gmail.com"; DotInsensitive(domain) && KeptDomain(domain) == domain && Ordinary(domain)
  {
  }

  lemma {:induction false} NoSpaceInside(email: string)
    requires forall c :: c in email ==> !IsSpace(c)
    ensures forall c :: c in Lower(Strip(email)) ==> !IsSpace(c)
  {
    assert Trimmed(email);
    StripTrimmed(email);
  }

  /** In particular on every address without whitespace. */
  lemma NormalizedTwiceWithoutSpaces(email: string)
    requires forall c :: c in email ==> !IsSpace(c)
    ensures Normalized(Normalized(email)) == Normalized(email)
  {
    NormalizedTwice(email);
    NoSpaceInside(email);
    var address := Lower(Strip(email));
    if LastAt(address) > 0 {
      var local, domain := Parts(address);
      var kept := KeptLocal(local, domain);
      assert kept != "" ==> kept[0] in BeforePlus(local) && kept[0] in address;
    }
  }

  /** A tag names the same mailbox: any text after '+' in the local part is dropped. */
  lemma TagIsDropped(local: string, tag: string, domain: string)
    requires local != "" && !IsSpace(local[0]) && domain != "" && !IsSpace(domain[|domain| - 1])
    requires '@' !in domain
    ensures Normalized(local + "+" + tag + "@" + domain) == Normalized(local + "@" + domain)
  {
    TagIsDroppedFrom(Lower(local), Lower(tag), Lower(domain));
    Ends(local + "+" + tag, domain);
    Ends(local, domain);
    StripTrimmed(local + "+" + tag + "@" + domain);
    StripTrimmed(local + "@" + domain);
    LowerJoin(local + "+" + tag, domain, '@');
    LowerJoin(local, domain, '@');
    LowerJoin(local, tag, '+');
  }

  lemma LowerJoin(a: string, b: string, c: char)
    requires LowerChar(c) == c
    ensures Lower(a + [c] + b) == Lower(a) + [c] + Lower(b)
  {
  }

  lemma TagIsDroppedFrom(local: string, tag: string, domain: string)
    requires local != "" && '@' !in domain
    ensures Mail(local + "+" + tag + "@" + domain) == Mail(local + "@" + domain)
  {
    MailOf(local + "+" + tag, domain);
    MailOf(local, domain);
    BeforePlusOf(local, tag);
  }

  lemma {:induction false} BeforePlusOf(local: string, tag: string)
    ensures BeforePlus(local + "+" + tag) == BeforePlus(local)
  {
    if local != "" && local[0] != '+' {
      BeforePlusOf(local[1..], tag);
      assert (local + "+" + tag)[1..] == local[1..] + "+" + tag;
    }
  }

  lemma {:induction false} OneDotDropped(a: string, b: string)
    ensures WithoutDots(a + "." + b) == WithoutDots(a + b)
  {
    if a == "" {
      assert a + "." + b == "." + b && (a + "." + b)[1..] == b && a + b == b;
    } else {
      OneDotDropped(a[1..], b);
      assert (a + "." + b)[1..] == a[1..] + "." + b && (a + b)[1..] == a[1..] + b;
    }
  }

  lemma {:induction false} PlainKept(s: string)
    requires '+' !in s
    ensures BeforePlus(s) == s
  {
  }

  /** An address at one of the two names of the provider that ignores dots. */
  predicate AtGmail(domain: string) { domain in {"gmail.com", "googlemail.com"} }

  lemma GmailIs(domain: string)
    ensures AtGmail(domain) <==> DotInsensitive(domain)
    ensures AtGmail(domain) ==> Lowered(domain) && '@' !in domain && !IsSpace(domain[|domain| - 1]) && domain != ""
  {
  }

  lemma LowerPieces(a: string, b: string)
    ensures Lower(a + b) == Lower(a) + Lower(b) && Lower(a + "." + b) == Lower(a) + "." + Lower(b)
    ensures ('+' in a <==> '+' in Lower(a)) && ('.' in a <==> '.' in Lower(a))
  {
    if '+' in Lower(a) { var i :| 0 <= i < |a| && Lower(a)[i] == '+'; assert a[i] in a; }
    if '+' in a { var i :| 0 <= i < |a| && a[i] == '+'; assert Lower(a)[i] in Lower(a); }
    if '.' in Lower(a) { var i :| 0 <= i < |a| && Lower(a)[i] == '.'; assert a[i] in a; }
    if '.' in a { var i :| 0 <= i < |a| && a[i] == '.'; assert Lower(a)[i] in Lower(a); }
  }

  lemma NoAtLowered(domain: string)
    requires '@' !in domain
    ensures '@' !in Lower(domain)
  {
    forall i | 0 <= i < |domain| ensures Lower(domain)[i] != '@' { assert domain[i] in domain; }
  }

  /** The mailbox of an address whose local part begins with no space. */
  lemma MailboxAt(local: string, domain: string)
    requires local != "" && !IsSpace(local[0]) && domain != "" && '@' !in domain && !IsSpace(domain[|domain| - 1])
    ensures Normalized(local + "@" + domain) == KeptLocal(Lower(local), Lower(domain)) + "@" + KeptDomain(Lower(domain))
  {
    Ends(local, domain);
    StripTrimmed(local + "@" + domain);
    LowerJoin(local, domain, '@');
    NoAtLowered(domain);
    MailOf(Lower(local), Lower(domain));
  }

  /** At the provider that ignores dots, a dot anywhere in the local part makes no difference ... */
  lemma DotIsDropped(a: string, b: string, domain: string)
    requires a != "" && !IsSpace(a[0]) && AtGmail(domain) && '+' !in a + b
    ensures Normalized(a + "." + b + "@" + domain) == Normalized(a + b + "@" + domain)
  {
    GmailIs(domain);
    LowerFixes(domain);
    MailboxAt(a + "." + b, domain);
    MailboxAt(a + b, domain);
    LowerPieces(a, b);
    LowerPieces(a + b, "");
    LowerPieces(a + "." + b, "");
    PlainKept(Lower(a + "." + b));
    PlainKept(Lower(a + b));
    OneDotDropped(Lower(a), Lower(b));
  }

  lemma KeptWhole(local: string, domain: string)
    requires DotInsensitive(domain) && '+' !in local && '.' !in local
    ensures KeptLocal(local, domain) == local && KeptDomain(domain) == "gmail.com"
  {
    PlainKept(local);
  }

  /** ... and everything else is kept, under the provider's one name: two local parts without dots and tags name
      one mailbox only if they differ in case alone. */
  lemma RestIsKept(local: string, domain: string)
    requires local != "" && !IsSpace(local[0]) && AtGmail(domain) && '+' !in local && '.' !in local
    ensures Normalized(local + "@" + domain) == Lower(local) + "@" + "gmail.com"
  {
    GmailIs(domain);
    LowerFixes(domain);
    MailboxAt(local, domain);
    LowerPieces(local, "");
    KeptWhole(Lower(local), domain);
  }

  /** Elsewhere dots are kept as well, and so is the domain. */
  lemma DotsAreKeptElsewhere(local: string, domain: string)
    requires local != "" && !IsSpace(local[0]) && '+' !in local
    requires domain != "" && '@' !in domain && !IsSpace(domain[|domain| - 1]) && !AtGmail(Lower(domain))
    ensures Normalized(local + "@" + domain) == Lower(local) + "@" + Lower(domain)
  {
    GmailIs(Lower(domain));
    MailboxAt(local, domain);
    LowerPieces(local, "");
    PlainKept(Lower(local));
  }

  /** With no local part before an '@' there is no mailbox to find: the address is only trimmed and lowercased. */
  lemma {:induction false} NoLocalPartStays(email: string)
    requires forall i :: 0 < i < |Strip(email)| ==> Strip(email)[i] != '@'
    ensures Normalized(email) == Lower(Strip(email))
  {
    var address := Lower(Strip(email));
    assert forall i :: 0 < i < |address| ==> address[i] != '@';
  }
}
