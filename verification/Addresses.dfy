/** How the mail tables read an address: its exact spelling without case or margins, and the inbox it lands in (suppression.ts). */
module Addresses {

  /** An address as every rule of the tables sees it; only the mail itself still carries the spelling as typed. */
  datatype Address = Address(folded: string, inbox: string)

  predicate IsSpace(c: char) { c == ' ' || c == '\t' || c == '\n' || c == '\r' }

  function TrimEnd(s: string): string {
    if s != [] && IsSpace(s[|s| - 1]) then TrimEnd(s[..|s| - 1]) else s
  }

  function TrimStart(s: string): string {
    if s != [] && IsSpace(s[0]) then TrimStart(s[1..]) else s
  }

  function LowerChar(c: char): char {
    if 'A' <= c <= 'Z' then (c as int + 32) as char else c
  }

  function Lower(s: string): string { seq(|s|, i requires 0 <= i < |s| => LowerChar(s[i])) }

  /** `address.trim().toLowerCase()`: what two spellings of one exact address share. */
  function Fold(address: string): string { Lower(TrimStart(TrimEnd(address))) }

  /** The index of the last `c`, or -1. */
  function LastIndex(s: string, c: char): (r: int)
    ensures -1 <= r < |s| && (r >= 0 ==> s[r] == c) && forall k :: r < k < |s| ==> s[k] != c
  {
    if s == [] then -1
    else if s[|s| - 1] == c then |s| - 1
    else LastIndex(s[..|s| - 1], c)
  }

  function Before(s: string, c: char): string {
    if s == [] || s[0] == c then [] else [s[0]] + Before(s[1..], c)
  }

  function Without(s: string, c: char): string {
    if s == [] then [] else (if s[0] == c then [] else [s[0]]) + Without(s[1..], c)
  }

  function NormaliseInbox(address: string): string {
    var lower := Fold(address);
    var at := LastIndex(lower, '@');
    if at < 0 then lower
    else
      var written := lower[at + 1..];
      var domain := if written == "googlemail.com" then "gmail.com" else written;
      var local := Before(lower[..at], '+');
      (if domain == "gmail.com" then Without(local, '.') else local) + "@" + domain
  }

  function Read(typed: string): Address { Address(Fold(typed), NormaliseInbox(typed)) }

  /** Two spellings are one address exactly when they fold alike: the inbox never tells them apart. */
  lemma ReadAlike(a: string, b: string)
    ensures Read(a) == Read(b) <==> Fold(a) == Fold(b)
  {
  }

  // ---------- what spellings share an inbox ----------

  predicate AtGmail(domain: string) { domain == "gmail.com" || domain == "googlemail.com" }

  function DomainOf(folded: string): string
    requires '@' in folded
  {
    LastIndexFinds(folded, '@');
    folded[LastIndex(folded, '@') + 1..]
  }

  /** The part before the last `@`, as its server would be asked for it: no tag, and at Gmail no dots. */
  function MailboxOf(folded: string): string
    requires '@' in folded
  {
    LastIndexFinds(folded, '@');
    var local := Before(folded[..LastIndex(folded, '@')], '+');
    if AtGmail(DomainOf(folded)) then Without(local, '.') else local
  }

  /** One mailbox at one domain, Gmail's two domains being one; without an `@`, the very same text. */
  predicate SharesInbox(f: string, g: string) {
    if '@' in f && '@' in g then
      MailboxOf(f) == MailboxOf(g) && (DomainOf(f) == DomainOf(g) || (AtGmail(DomainOf(f)) && AtGmail(DomainOf(g))))
    else f == g
  }

  lemma LastIndexFinds(s: string, c: char)
    ensures LastIndex(s, c) >= 0 <==> c in s
    ensures c !in s[LastIndex(s, c) + 1..]
  {
    NoneFrom(s, c, LastIndex(s, c) + 1);
  }

  lemma NoneFrom(s: string, c: char, i: nat)
    requires i <= |s| && forall k :: i <= k < |s| ==> s[k] != c
    ensures c !in s[i..] && (i == 0 ==> c !in s)
  {
  }

  lemma {:induction false} LastIndexIs(x: string, c: char, y: string)
    requires c !in y
    ensures LastIndex(x + [c] + y, c) == |x|
  {
    var s := x + [c] + y;
    if y != [] {
      assert s[..|s| - 1] == x + [c] + y[..|y| - 1] && s[|s| - 1] == y[|y| - 1];
      LastIndexIs(x, c, y[..|y| - 1]);
    }
  }

  function PlainDomain(domain: string): string { if domain == "googlemail.com" then "gmail.com" else domain }

  lemma SameDomain(d: string, e: string)
    ensures PlainDomain(d) == PlainDomain(e) <==> d == e || (AtGmail(d) && AtGmail(e))
  {
  }

  lemma NormalForm(address: string)
    ensures
      var f, n := Fold(address), NormaliseInbox(address);
      if '@' in f then n == MailboxOf(f) + "@" + PlainDomain(DomainOf(f)) && '@' !in PlainDomain(DomainOf(f)) else n == f
  {
    LastIndexFinds(Fold(address), '@');
  }

  /** A normal form gives back its mailbox and its domain. */
  lemma NormalFormSplits(x: string, d: string, y: string, e: string)
    requires '@' !in d && '@' !in e && x + "@" + d == y + "@" + e
    ensures x == y && d == e
  {
    LastIndexIs(x, '@', d);
    LastIndexIs(y, '@', e);
    assert (x + "@" + d)[..|x|] == x && (y + "@" + e)[..|y|] == y;
    assert (x + "@" + d)[|x| + 1..] == d && (y + "@" + e)[|y| + 1..] == e;
  }

  lemma BothSplit(f: string, g: string)
    requires '@' in f && '@' in g && '@' !in PlainDomain(DomainOf(f)) && '@' !in PlainDomain(DomainOf(g))
    ensures MailboxOf(f) + "@" + PlainDomain(DomainOf(f)) == MailboxOf(g) + "@" + PlainDomain(DomainOf(g)) <==> SharesInbox(f, g)
  {
    var x, d, y, e := MailboxOf(f), PlainDomain(DomainOf(f)), MailboxOf(g), PlainDomain(DomainOf(g));
    SameDomain(DomainOf(f), DomainOf(g));
    if x + "@" + d == y + "@" + e { NormalFormSplits(x, d, y, e); }
  }

  lemma HasAt(x: string, d: string)
    ensures '@' in x + "@" + d
  {
    assert (x + "@" + d)[|x|] == '@';
  }

  /** Two spellings share an inbox exactly when they name one mailbox at one domain. */
  lemma SharesInboxExactly(a: string, b: string)
    ensures NormaliseInbox(a) == NormaliseInbox(b) <==> SharesInbox(Fold(a), Fold(b))
  {
    var f, g := Fold(a), Fold(b);
    NormalForm(a);
    NormalForm(b);
    if '@' in f { HasAt(MailboxOf(f), PlainDomain(DomainOf(f))); }
    if '@' in g { HasAt(MailboxOf(g), PlainDomain(DomainOf(g))); }
    if '@' in f && '@' in g { BothSplit(f, g); }
  }

  // ---------- how typed spellings come to share one ----------

  lemma {:induction false} TrimEndStops(x: string, c: char, y: string)
    requires !IsSpace(c)
    ensures TrimEnd(x + [c] + y) == x + [c] + TrimEnd(y)
  {
    var s := x + [c] + y;
    if y != [] && IsSpace(y[|y| - 1]) {
      assert s[..|s| - 1] == x + [c] + y[..|y| - 1];
      TrimEndStops(x, c, y[..|y| - 1]);
    }
  }

  lemma {:induction false} TrimStartStops(x: string, c: char, y: string)
    requires !IsSpace(c)
    ensures TrimStart(x + [c] + y) == TrimStart(x) + [c] + y
  {
    var s := x + [c] + y;
    if x != [] && IsSpace(x[0]) {
      assert s[1..] == x[1..] + [c] + y;
      TrimStartStops(x[1..], c, y);
    }
  }

  /** Around a character that is neither a space nor a capital, folding works on each side alone. */
  lemma FoldAround(x: string, c: char, y: string)
    requires !IsSpace(c) && LowerChar(c) == c
    ensures Fold(x + [c] + y) == Lower(TrimStart(x)) + [c] + Lower(TrimEnd(y))
  {
    TrimEndStops(x, c, y);
    TrimStartStops(x, c, TrimEnd(y));
  }

  lemma {:induction false} BeforeStops(x: string, c: char, y: string)
    ensures Before(x + [c] + y, c) == Before(x, c)
  {
    var s := x + [c] + y;
    if x != [] && x[0] != c {
      assert s[1..] == x[1..] + [c] + y;
      BeforeStops(x[1..], c, y);
    }
  }

  lemma {:induction false} TrimEndKeepsOut(y: string, c: char)
    requires c !in y
    ensures c !in TrimEnd(y)
  {
    if y != [] { TrimEndKeepsOut(y[..|y| - 1], c); }
  }

  lemma PartsOf(x: string, y: string)
    requires '@' !in y
    ensures
      var f := x + ['@'] + y;
      '@' in f && LastIndex(f, '@') == |x| && f[..|x|] == x && DomainOf(f) == y
  {
    LastIndexIs(x, '@', y);
    assert (x + ['@'] + y)[|x|] == '@';
  }

  /** What an address split at its last `@` folds to. */
  lemma FoldedParts(local: string, domain: string)
    requires '@' !in domain
    ensures
      var f := Fold(local + "@" + domain);
      && '@' in f && LastIndex(f, '@') >= 0 && f[..LastIndex(f, '@')] == Lower(TrimStart(local)) && DomainOf(f) == Lower(TrimEnd(domain))
  {
    FoldAround(local, '@', domain);
    TrimEndKeepsOut(domain, '@');
    PartsOf(Lower(TrimStart(local)), Lower(TrimEnd(domain)));
  }

  lemma MailboxFrom(local: string, domain: string)
    requires '@' !in domain
    ensures
      var f, box := Fold(local + "@" + domain), Before(Lower(TrimStart(local)), '+');
      '@' in f && DomainOf(f) == Lower(TrimEnd(domain)) && MailboxOf(f) == if AtGmail(DomainOf(f)) then Without(box, '.') else box
  {
    FoldedParts(local, domain);
  }

  lemma TagIsCut(local: string, tag: string)
    ensures Before(Lower(TrimStart(local + "+" + tag)), '+') == Before(Lower(TrimStart(local)), '+')
  {
    TrimStartStops(local, '+', tag);
    assert Lower(TrimStart(local) + "+" + tag) == Lower(TrimStart(local)) + "+" + Lower(tag);
    BeforeStops(Lower(TrimStart(local)), '+', Lower(tag));
  }

  /** Whatever follows a `+` in the part before the `@` leads to the same inbox, at any domain. */
  lemma TagsAreDropped(local: string, tag: string, domain: string)
    requires '@' !in domain
    ensures NormaliseInbox(local + "+" + tag + "@" + domain) == NormaliseInbox(local + "@" + domain)
  {
    TagIsCut(local, tag);
    MailboxFrom(local + "+" + tag, domain);
    MailboxFrom(local, domain);
    SharesInboxExactly(local + "+" + tag + "@" + domain, local + "@" + domain);
  }

  lemma WithoutFirst(c: char, x: char, s: string)
    ensures Without([x] + s, c) == if x == c then Without(s, c) else [x] + Without(s, c)
  {
    assert ([x] + s)[1..] == s;
    assert [] + Without(s, c) == Without(s, c);
  }

  lemma BeforeFirst(c: char, x: char, s: string)
    ensures Before([x] + s, c) == if x == c then [] else [x] + Before(s, c)
  {
    assert ([x] + s)[1..] == s;
  }

  lemma {:induction false} DotsCommute(s: string)
    ensures Without(Before(s, '+'), '.') == Before(Without(s, '.'), '+')
  {
    if s != [] {
      DotsCommute(s[1..]);
      assert s == [s[0]] + s[1..];
      BeforeFirst('+', s[0], s[1..]);
      WithoutFirst('.', s[0], s[1..]);
      WithoutFirst('.', s[0], Before(s[1..], '+'));
      BeforeFirst('+', s[0], Without(s[1..], '.'));
    }
  }

  lemma LowerFirst(c: char, s: string)
    ensures Lower([c] + s) == [LowerChar(c)] + Lower(s)
  {
  }

  lemma {:induction false} DotsLower(s: string)
    ensures Without(Lower(s), '.') == Lower(Without(s, '.'))
  {
    if s != [] {
      DotsLower(s[1..]);
      assert s == [s[0]] + s[1..];
      LowerFirst(s[0], s[1..]);
      LowerFirst(s[0], Without(s[1..], '.'));
      assert ([LowerChar(s[0])] + Lower(s[1..]))[1..] == Lower(s[1..]);
    }
  }

  /** Dots in a Gmail address, under either of its domains, lead nowhere else. */
  lemma GmailDotsAreDropped(local: string, dotted: string, domain: string, other: string)
    requires AtGmail(domain) && AtGmail(other) && TrimStart(local) == local && TrimStart(dotted) == dotted
    requires Without(local, '.') == Without(dotted, '.')
    ensures NormaliseInbox(local + "@" + domain) == NormaliseInbox(dotted + "@" + other)
  {
    GmailFolds(local, domain);
    GmailFolds(dotted, other);
    SharesInboxExactly(local + "@" + domain, dotted + "@" + other);
  }

  lemma GmailIsFolded(domain: string)
    requires AtGmail(domain)
    ensures '@' !in domain && Lower(TrimEnd(domain)) == domain
  {
  }

  lemma GmailFolds(local: string, domain: string)
    requires AtGmail(domain) && TrimStart(local) == local
    ensures
      var f := Fold(local + "@" + domain);
      '@' in f && AtGmail(DomainOf(f)) && MailboxOf(f) == Before(Lower(Without(local, '.')), '+')
  {
    GmailIsFolded(domain);
    FoldedParts(local, domain);
    DotsCommute(Lower(local));
    DotsLower(local);
  }

  // ---------- normalising a normal form ----------

  predicate NoEdges(s: string) { s == [] || (!IsSpace(s[0]) && !IsSpace(s[|s| - 1])) }

  lemma {:induction false} TrimStartTrims(s: string)
    ensures
      var t := TrimStart(s);
      && (t != [] ==> !IsSpace(t[0]) && t[|t| - 1] == s[|s| - 1])
      && (if s == [] || !IsSpace(s[0]) then t == s else |t| < |s|)
  {
    if s != [] && IsSpace(s[0]) { TrimStartTrims(s[1..]); }
  }

  lemma {:induction false} TrimEndTrims(s: string)
    ensures
      var t := TrimEnd(s);
      && |t| <= |s| && (t != [] ==> !IsSpace(t[|t| - 1])) && (t == s <==> s == [] || !IsSpace(s[|s| - 1]))
  {
    if s != [] && IsSpace(s[|s| - 1]) { TrimEndTrims(s[..|s| - 1]); }
  }

  /** Folding leaves no capital and no space at either end, and changes nothing of that kind. */
  lemma FoldFolds(s: string)
    ensures Lower(Fold(s)) == Fold(s) && NoEdges(Fold(s)) && |Fold(s)| <= |s|
    ensures Lower(s) == s && NoEdges(s) ==> Fold(s) == s
  {
    TrimEndTrims(s);
    TrimStartTrims(TrimEnd(s));
  }

  lemma {:induction false} BeforeCuts(s: string, c: char)
    ensures Before(s, c) <= s && c !in Before(s, c) && (c !in s ==> Before(s, c) == s)
  {
    if s != [] && s[0] != c {
      BeforeCuts(s[1..], c);
      assert s == [s[0]] + s[1..];
    }
  }

  lemma {:induction false} WithoutDrops(s: string, c: char)
    ensures (forall x :: x in Without(s, c) <==> x in s && x != c) && (c !in s ==> Without(s, c) == s) && |Without(s, c)| <= |s|
  {
    if s != [] {
      WithoutDrops(s[1..], c);
      assert s == [s[0]] + s[1..];
    }
  }

  predicate NoCapitals(s: string) { forall x :: x in s ==> LowerChar(x) == x }

  lemma LowerStays(s: string)
    ensures NoCapitals(s) <==> Lower(s) == s
  {
    if Lower(s) == s {
      forall x | x in s ensures LowerChar(x) == x {
        var i :| 0 <= i < |s| && s[i] == x;
        assert Lower(s)[i] == x;
      }
    }
  }

  /** With the dots gone, a space they stood before comes first, and a second trim takes it. */
  predicate LeadsWithSpace(f: string) {
    '@' in f && MailboxOf(f) != [] && IsSpace(MailboxOf(f)[0])
  }

  lemma LocalHolds(local: string)
    requires NoCapitals(local)
    ensures NoCapitals(Before(local, '+')) && '+' !in Before(local, '+')
    ensures
      var plain := Without(Before(local, '+'), '.');
      NoCapitals(plain) && '+' !in plain && '.' !in plain
  {
    BeforeCuts(local, '+');
    assert forall x :: x in Before(local, '+') ==> x in local;
    WithoutDrops(Before(local, '+'), '.');
  }

  /** What a mailbox can hold: no capital, no tag, and at Gmail no dot. */
  lemma MailboxHolds(f: string)
    requires '@' in f && NoCapitals(f)
    ensures NoCapitals(MailboxOf(f)) && '+' !in MailboxOf(f) && (AtGmail(DomainOf(f)) ==> '.' !in MailboxOf(f))
  {
    LastIndexFinds(f, '@');
    LocalHolds(f[..LastIndex(f, '@')]);
  }

  lemma DomainHolds(f: string)
    requires '@' in f && NoCapitals(f) && NoEdges(f)
    ensures
      var domain := PlainDomain(DomainOf(f));
      && NoCapitals(domain) && '@' !in domain && TrimEnd(domain) == domain && Lower(domain) == domain
      && PlainDomain(domain) == domain && (AtGmail(domain) <==> AtGmail(DomainOf(f)))
  {
    var domain := PlainDomain(DomainOf(f));
    LastIndexFinds(f, '@');
    GmailIsFolded("gmail.com");
    TrimEndTrims(domain);
    LowerStays(domain);
  }

  lemma RereadParts(mailbox: string, domain: string)
    requires '@' !in domain && TrimEnd(domain) == domain && Lower(domain) == domain && PlainDomain(domain) == domain
    ensures
      var local := Before(Lower(TrimStart(mailbox)), '+');
      NormaliseInbox(mailbox + "@" + domain) == (if AtGmail(domain) then Without(local, '.') else local) + "@" + domain
  {
    FoldedParts(mailbox, domain);
    NormalForm(mailbox + "@" + domain);
  }

  /** A mailbox and a domain already normal are read back as they are, but for spaces in front. */
  lemma RereadForm(mailbox: string, domain: string)
    requires NoCapitals(mailbox) && '+' !in mailbox && (AtGmail(domain) ==> '.' !in mailbox)
    requires '@' !in domain && TrimEnd(domain) == domain && Lower(domain) == domain && PlainDomain(domain) == domain
    ensures NormaliseInbox(mailbox + "@" + domain) == mailbox + "@" + domain <==> mailbox == [] || !IsSpace(mailbox[0])
  {
    RereadParts(mailbox, domain);
    TrimStartTrims(mailbox);
    LowerStays(mailbox);
    var local := Lower(TrimStart(mailbox));
    BeforeCuts(local, '+');
    WithoutDrops(Before(local, '+'), '.');
  }

  /** Normalising twice is normalising once, unless at Gmail a space hid behind leading dots. */
  lemma NormalFormStaysExactly(address: string)
    ensures NormaliseInbox(NormaliseInbox(address)) == NormaliseInbox(address) <==> !LeadsWithSpace(Fold(address))
  {
    var f := Fold(address);
    NormalForm(address);
    FoldFolds(address);
    LowerStays(f);
    if '@' in f {
      MailboxHolds(f);
      DomainHolds(f);
      RereadForm(MailboxOf(f), PlainDomain(DomainOf(f)));
    } else {
      FoldFolds(f);
      NormalForm(f);
    }
  }

  lemma HiddenMailbox(rest: string)
    ensures
      var box := Before(Lower(Without(['.'] + ([' '] + rest), '.')), '+');
      box != [] && box[0] == ' '
  {
    WithoutFirst('.', '.', [' '] + rest);
    WithoutFirst('.', ' ', rest);
    LowerFirst(' ', Without(rest, '.'));
    BeforeFirst('+', ' ', Lower(Without(rest, '.')));
  }

  /** Such an address: a dot, a space, and anything. */
  lemma DotHidesSpace(rest: string, domain: string)
    requires AtGmail(domain)
    ensures
      var address := ['.'] + [' '] + rest + "@" + domain;
      NormaliseInbox(NormaliseInbox(address)) != NormaliseInbox(address)
  {
    var local := ['.'] + ([' '] + rest);
    assert ['.'] + [' '] + rest == local;
    TrimStartTrims(local);
    GmailFolds(local, domain);
    HiddenMailbox(rest);
    NormalFormStaysExactly(local + "@" + domain);
  }
}
