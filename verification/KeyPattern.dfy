// parseKeyPattern of bench/write.go: where the bound on the number of sorted streams comes from.
module KeyPatterns {
  import opened Numbers
  import opened Text

  const MAX_STREAMS: nat := 65536

  /** The number of sorted streams (none for random keys), and whether random batches are mixed in. */
  datatype KeyPattern = Pattern(streams: nat, mixed: bool) | BadPattern

  function Int64(n: int): Option<int> {
    if -MAX_INT64 - 1 <= n <= MAX_INT64 then Some(n) else None
  }

  /** strconv.Atoi: an optional sign and digits, within 64 bits. */
  function Atoi(s: string): Option<int> {
    var signed := s != "" && (s[0] == '-' || s[0] == '+');
    var ds := if signed then s[1..] else s;
    if ds == "" || !AllDigits(ds) then None
    else Int64(if signed && s[0] == '-' then 0 - Value(ds) else Value(ds))
  }

  function ParseNamed(name: string, hasArg: bool, arg: string): KeyPattern {
    if name == "" || name == "random" then Pattern(0, false)
    else if name == "sorted" || name == "snapsync" then
      var mixed := name == "snapsync";
      if !hasArg then Pattern(16, mixed)
      else
        match Atoi(arg)
        case None => BadPattern
        case Some(n) => if n < 1 || n > MAX_STREAMS then BadPattern else Pattern(n, mixed)
    else BadPattern
  }

  /** Whatever the text, an accepted pattern has at most 65536 streams, and mixes only into some. */
  function ParseKeyPattern(p: string): (k: KeyPattern)
    ensures k.Pattern? ==> k.streams <= 65536 && (k.mixed ==> k.streams >= 1)
  {
    var s := ToLower(TrimSpace(p));
    var i := IndexOf(s, ':');
    ParseNamed(s[..i], i < |s|, if i < |s| then s[i + 1..] else "")
  }

  lemma AtoiOfDigits(n: nat)
    ensures Atoi(Digits(n)) == Int64(n)
  {
    hide Digits;
    ValueOfDigits(n);
    assert IsDigit(Digits(n)[0]);
  }

  lemma CleanPattern(s: string)
    requires s != "" && forall i :: 0 <= i < |s| ==> !IsSpace(s[i]) && Lower(s[i]) == s[i]
    ensures ToLower(TrimSpace(s)) == s
  {
    assert !IsSpace(s[0]) && !IsSpace(s[|s| - 1]);
  }

  lemma CutAtColon(name: string, arg: string)
    requires forall i :: 0 <= i < |name| ==> !IsSpace(name[i]) && Lower(name[i]) == name[i] && name[i] != ':'
    requires AllDigits(arg)
    ensures ParseKeyPattern(name + ":" + arg) == ParseNamed(name, true, arg)
  {
    hide ParseNamed;
    var s := name + ":" + arg;
    CleanPattern(s);
    IndexAfter(name, ':', arg);
    assert s == name + [':'] + arg;
    assert s[..|name|] == name && s[|name| + 1..] == arg;
  }

  /** Asking for n streams gives exactly n when 1 <= n <= 65536, and an error otherwise. */
  lemma StreamsAsked(name: string, n: nat)
    requires name == "sorted" || name == "snapsync"
    ensures ParseKeyPattern(name + ":" + Digits(n)) ==
            if 1 <= n <= 65536 then Pattern(n, name == "snapsync") else BadPattern
  {
    hide Digits, Atoi, ParseKeyPattern;
    CutAtColon(name, Digits(n));
    AtoiOfDigits(n);
  }

  /** Without a number: sixteen streams, or none for random keys. */
  lemma NamedPatterns()
    ensures ParseKeyPattern("") == Pattern(0, false) && ParseKeyPattern("random") == Pattern(0, false)
    ensures ParseKeyPattern("sorted") == Pattern(16, false) && ParseKeyPattern("snapsync") == Pattern(16, true)
  {
    hide ParseKeyPattern;
    PlainName("");
    PlainName("random");
    PlainName("sorted");
    PlainName("snapsync");
  }

  lemma PlainName(name: string)
    requires forall i :: 0 <= i < |name| ==> !IsSpace(name[i]) && Lower(name[i]) == name[i] && name[i] != ':'
    ensures ParseKeyPattern(name) == ParseNamed(name, false, "")
  {
    hide ParseNamed;
    if name != "" {
      CleanPattern(name);
    }
    IndexAfter(name, ':', "");
    assert name[..|name|] == name;
  }

  /** Case and surrounding white space do not matter; the name is what stands before the first colon. */
  lemma UnknownNames(p: string)
    ensures var t := ToLower(TrimSpace(p));
            var name := t[..IndexOf(t, ':')];
            && (ParseKeyPattern(p) == Pattern(0, false) <==> name == "" || name == "random")
            && (ParseKeyPattern(p).Pattern? ==> name in {"", "random", "sorted", "snapsync"})
            && (ParseKeyPattern(p).Pattern? ==> (ParseKeyPattern(p).mixed <==> name == "snapsync"))
  {
    hide TrimSpace, ToLower, Atoi;
  }

  /** A sign is allowed, and anything but digits after it is not. */
  lemma SignedAtoi(n: nat, s: string)
    ensures Atoi("+" + Digits(n)) == Atoi(Digits(n))
    ensures Atoi("-" + Digits(n)) == (if n <= 0x8000_0000_0000_0000 then Some(0 - n as int) else None)
    ensures Atoi(Digits(n)) == (if n < 0x8000_0000_0000_0000 then Some(n) else None)
    ensures Atoi(s).Some? ==> s != "" && AllDigits(s[1..]) && IsDigit(s[|s| - 1])
                              && (IsDigit(s[0]) || s[0] == '-' || s[0] == '+')
  {
    hide Digits;
    AtoiOfDigits(n);
    ValueOfDigits(n);
    assert ("+" + Digits(n))[1..] == Digits(n) && ("-" + Digits(n))[1..] == Digits(n);
  }

  /** White space around a pattern and the case of its letters make no difference. */
  lemma SpaceAndCase(before: string, p: string, after: string)
    requires Blank(before) && Blank(after)
    requires p != "" && !IsSpace(p[0]) && !IsSpace(p[|p| - 1])
    ensures ParseKeyPattern(before + p + after) == ParseKeyPattern(p)
    ensures ParseKeyPattern(ToUpper(p)) == ParseKeyPattern(p)
  {
    hide TrimLeft, TrimRight, ToLower, ToUpper, IndexOf, ParseNamed;
    Trimmed(before, p, after);
    Trimmed("", p, "");
    assert "" + p + "" == p;
    TrimUpper(p);
    TrimUpper(TrimLeft(p));
    CaseTwice(TrimSpace(p));
  }
}
