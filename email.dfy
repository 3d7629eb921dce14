/** The email subscription form of the coming-soon page.

    `validateEmail` tests the address against the regular expression
    `^[^\s@]+@[^\s@]+\.[^\s@]+$`.  Here that test is a left-to-right scan by
    the automaton of that expression, proved equal both to the language of the
    expression and to its plain reading: no whitespace, exactly one '@', a
    non-empty part before it, and a '.' after it that is neither the first nor
    the last character of the part after it.

    `handleSubmit` trims the input and then decides, in this order: an empty
    address, an invalid address, or sending.
 */
module EmailForm {

  // ---------------------------------------------------------------------------
  // Characters

  /** ECMAScript's WhiteSpace and LineTerminator characters: what `\s` matches
      and what `String.prototype.trim` removes. */
  predicate IsWhitespace(c: char)
  {
    var n := c as int;
    (0x09 <= n <= 0x0D) || n == 0x20 || n == 0xA0 || n == 0x1680 ||
    (0x2000 <= n <= 0x200A) || n == 0x2028 || n == 0x2029 || n == 0x202F ||
    n == 0x205F || n == 0x3000 || n == 0xFEFF
  }

  /** The character class `[^\s@]`. */
  predicate IsPlain(c: char)
  {
    !IsWhitespace(c) && c != '@'
  }

  predicate AllPlain(s: string)
  {
    forall k :: 0 <= k < |s| ==> IsPlain(s[k])
  }

  predicate NoWhitespace(s: string)
  {
    forall k :: 0 <= k < |s| ==> !IsWhitespace(s[k])
  }

  /** `d` has a '.' at a position other than its first and its last. */
  predicate HasInnerDot(d: string)
  {
    exists k :: 0 < k < |d| - 1 && d[k] == '.'
  }

  /** The position of the first `c` in `s`, or `|s|` when there is none. */
  function IndexOf(s: string, c: char): (i: nat)
    ensures i <= |s|
    ensures i < |s| ==> s[i] == c
    ensures forall k :: 0 <= k < i ==> s[k] != c
  {
    if s == [] then 0 else if s[0] == c then 0 else 1 + IndexOf(s[1..], c)
  }

  // ---------------------------------------------------------------------------
  // The regular expression

  /** The language of `^[^\s@]+@[^\s@]+\.[^\s@]+$`: the whole string is one
      run of `[^\s@]`, then '@', then a run, then '.', then a run, every run
      non-empty.  `at` and `dot` are the positions of the two literals. */
  ghost predicate RegexMatch(s: string)
  {
    exists at, dot ::
      0 < at && at + 1 < dot && dot + 1 < |s| &&
      s[at] == '@' && s[dot] == '.' &&
      AllPlain(s[..at]) && AllPlain(s[at + 1..dot]) && AllPlain(s[dot + 1..])
  }

  /** The states of the expression's automaton: what of the pattern the scan
      has consumed so far. */
  datatype Phase =
    | Start      // nothing
    | Local      // one or more characters of the part before '@'
    | AfterAt    // ... and the '@'
    | Domain     // ... and part of the domain with no usable '.' yet
    | DomainDot  // ... whose last character is a '.' that is not its first
    | Accept     // ... and at least one character after such a '.'
    | Reject

  function Step(p: Phase, c: char): Phase
  {
    if !IsPlain(c) then
      if p == Local && c == '@' then AfterAt else Reject
    else
      match p
      case Start => Local
      case Local => Local
      case AfterAt => Domain
      case Domain => if c == '.' then DomainDot else Domain
      case DomainDot => Accept
      case Accept => Accept
      case Reject => Reject
  }

  /** The state after reading all of `s`. */
  function Scan(s: string): Phase
  {
    if s == [] then Start else Step(Scan(s[..|s| - 1]), s[|s| - 1])
  }

  /** `validateEmail` (lines 198-201 of the source): the address matches the
      expression from start to end. */
  function ValidateEmail(email: string): bool
  {
    Scan(email) == Accept
  }

  // ---------------------------------------------------------------------------
  // What each state of the scan means

  /** `s` is a non-empty run of `[^\s@]`, an '@', and then a run of `[^\s@]`
      (the domain so far, possibly empty). */
  predicate SplitAt(s: string)
  {
    var at := IndexOf(s, '@');
    0 < at < |s| && AllPlain(s[..at]) && AllPlain(s[at + 1..])
  }

  function DomainPart(s: string): string
    requires IndexOf(s, '@') < |s|
  {
    s[IndexOf(s, '@') + 1..]
  }

  predicate EndsInDot(d: string)
  {
    |d| >= 2 && d[|d| - 1] == '.'
  }

  /** The phase that a string puts the scan in, read off the string itself. */
  ghost function Classify(s: string): Phase
  {
    if s == [] then Start
    else if AllPlain(s) then Local
    else if !SplitAt(s) then Reject
    else if DomainPart(s) == [] then AfterAt
    else if HasInnerDot(DomainPart(s)) then Accept
    else if EndsInDot(DomainPart(s)) then DomainDot
    else Domain
  }

  lemma IndexOfAppend(s: string, c: char, x: char)
    ensures IndexOf(s + [x], c) == if IndexOf(s, c) < |s| then IndexOf(s, c)
                                   else if x == c then |s| else |s| + 1
  {
    var i := IndexOf(s + [x], c);
    var j := IndexOf(s, c);
    assert forall k :: 0 <= k < |s| ==> (s + [x])[k] == s[k];
    if j < |s| {
      assert (s + [x])[j] == c;
    } else {
      assert i >= |s|;
      if x == c {
        assert (s + [x])[|s|] == c;
      }
    }
  }

  lemma HasInnerDotAppend(d: string, x: char)
    ensures HasInnerDot(d + [x]) <==> HasInnerDot(d) || EndsInDot(d)
  {
    var e := d + [x];
    if HasInnerDot(e) && !EndsInDot(d) {
      var k :| 0 < k < |e| - 1 && e[k] == '.';
      assert k < |d| - 1;
      assert d[k] == '.';
    }
    if HasInnerDot(d) {
      var k :| 0 < k < |d| - 1 && d[k] == '.';
      assert e[k] == '.';
    }
    if EndsInDot(d) {
      assert e[|d| - 1] == '.';
    }
  }

  lemma AllPlainAppend(s: string, x: char)
    ensures AllPlain(s + [x]) <==> AllPlain(s) && IsPlain(x)
  {
    assert forall k :: 0 <= k < |s| ==> (s + [x])[k] == s[k];
    assert (s + [x])[|s|] == x;
  }

  /** One more character moves the phase of a string as the automaton does. */
  lemma {:induction false} ClassifyStep(t: string, x: char)
    ensures Classify(t + [x]) == Step(Classify(t), x)
  {
    var s := t + [x];
    IndexOfAppend(t, '@', x);
    AllPlainAppend(t, x);
    if IndexOf(t, '@') < |t| {
      ClassifyStepInDomain(t, x);
    } else if x == '@' {
      // the '@' of s is x itself
      assert s[..|t|] == t;
      assert s[|t| + 1..] == [];
    } else {
      // neither t nor s has an '@'
      assert !SplitAt(t) && !SplitAt(s);
    }
  }

  /** Past the '@', one more character extends the domain. */
  lemma {:induction false} ClassifyStepInDomain(t: string, x: char)
    requires IndexOf(t, '@') < |t|
    ensures Classify(t + [x]) == Step(Classify(t), x)
  {
    var s := t + [x];
    var at := IndexOf(t, '@');
    IndexOfAppend(t, '@', x);
    assert s[..at] == t[..at];
    assert DomainPart(s) == DomainPart(t) + [x];
    AllPlainAppend(DomainPart(t), x);
    HasInnerDotAppend(DomainPart(t), x);
    assert !AllPlain(t) && !AllPlain(s) by {
      assert t[at] == '@' && s[at] == '@';
    }
  }

  /** The automaton's phase after a string is the phase read off the string. */
  lemma {:induction false} ScanClassifies(s: string)
    ensures Scan(s) == Classify(s)
  {
    if s != [] {
      var t, x := s[..|s| - 1], s[|s| - 1];
      assert s == t + [x];
      ScanClassifies(t);
      ClassifyStep(t, x);
    }
  }

  /** The accepting phase, read off the string. */
  lemma ValidateEmailSplit(email: string)
    ensures ValidateEmail(email) <==> SplitAt(email) && HasInnerDot(DomainPart(email))
  {
    ScanClassifies(email);
    if SplitAt(email) {
      var at := IndexOf(email, '@');
      assert email[at] == '@';
      assert !AllPlain(email);
    }
  }

  /** `validateEmail` accepts exactly the strings of the expression. */
  lemma ValidateEmailMatchesRegex(email: string)
    ensures ValidateEmail(email) <==> RegexMatch(email)
  {
    ValidateEmailSplit(email);
    if ValidateEmail(email) {
      var at := IndexOf(email, '@');
      var d := DomainPart(email);
      var k :| 0 < k < |d| - 1 && d[k] == '.';
      var dot := at + 1 + k;
      assert email[dot] == '.';
      assert email[at + 1..dot] == d[..k];
      assert email[dot + 1..] == d[k + 1..];
      assert AllPlain(d[..k]) && AllPlain(d[k + 1..]);
      assert RegexMatch(email);
    }
    if RegexMatch(email) {
      var at, dot :| 0 < at && at + 1 < dot && dot + 1 < |email| &&
        email[at] == '@' && email[dot] == '.' &&
        AllPlain(email[..at]) && AllPlain(email[at + 1..dot]) && AllPlain(email[dot + 1..]);
      RegexSplit(email, at, dot);
    }
  }

  /** A match of the expression, seen as the accepting phase. */
  lemma RegexSplit(email: string, at: nat, dot: nat)
    requires 0 < at && at + 1 < dot && dot + 1 < |email|
    requires email[at] == '@' && email[dot] == '.'
    requires AllPlain(email[..at]) && AllPlain(email[at + 1..dot]) && AllPlain(email[dot + 1..])
    ensures SplitAt(email) && HasInnerDot(DomainPart(email))
  {
    forall k | 0 <= k < at ensures email[k] != '@' {
      assert email[..at][k] == email[k];
    }
    assert IndexOf(email, '@') == at;
    var d := email[at + 1..];
    forall k | 0 <= k < |d| ensures IsPlain(d[k]) {
      if k < dot - at - 1 {
        assert d[k] == email[at + 1..dot][k];
      } else if k > dot - at - 1 {
        assert d[k] == email[dot + 1..][k - (dot - at)];
      } else {
        assert d[k] == email[dot];
      }
    }
    assert d[dot - at - 1] == '.';
  }

  /** The plain reading of the expression. */
  lemma ValidateEmailExact(email: string)
    ensures ValidateEmail(email) <==>
      NoWhitespace(email) &&
      multiset(email)['@'] == 1 &&
      0 < IndexOf(email, '@') < |email| &&
      HasInnerDot(email[IndexOf(email, '@') + 1..])
  {
    ValidateEmailSplit(email);
    var at := IndexOf(email, '@');
    if at < |email| {
      var left, right := email[..at], email[at + 1..];
      SplitCounts(email, at);
      AllPlainChars(left);
      AllPlainChars(right);
    }
  }

  /** Around its first '@', a string has no '@' on the left, and no whitespace
      exactly when neither side has any. */
  lemma SplitCounts(s: string, at: nat)
    requires at == IndexOf(s, '@') < |s|
    ensures multiset(s)['@'] == 1 + multiset(s[at + 1..])['@']
    ensures multiset(s[..at])['@'] == 0
    ensures NoWhitespace(s) <==> NoWhitespace(s[..at]) && NoWhitespace(s[at + 1..])
  {
    var left, right := s[..at], s[at + 1..];
    assert s == left + [s[at]] + right;
    assert multiset(s) == multiset(left) + multiset{'@'} + multiset(right);
    assert '@' !in left;
    forall k | 0 <= k < |s| && IsWhitespace(s[k])
      ensures !NoWhitespace(left) || !NoWhitespace(right)
    {
      if k < at { assert left[k] == s[k]; }
      else if k > at { assert right[k - at - 1] == s[k]; }
    }
  }

  lemma AllPlainChars(s: string)
    ensures AllPlain(s) <==> NoWhitespace(s) && multiset(s)['@'] == 0
  {
    if NoWhitespace(s) && !AllPlain(s) {
      var k :| 0 <= k < |s| && !IsPlain(s[k]);
      assert s[k] in multiset(s);
    }
  }

  // ---------------------------------------------------------------------------
  // trim

  /** The index of the first non-whitespace character of `s` at or after
      `i`, or |s| when there is none. */
  function SkipLeading(s: string, i: nat): (n: nat)
    requires i <= |s|
    ensures i <= n <= |s|
    ensures forall k :: i <= k < n ==> IsWhitespace(s[k])
    ensures n < |s| ==> !IsWhitespace(s[n])
    decreases |s| - i
  {
    if i == |s| || !IsWhitespace(s[i]) then i else SkipLeading(s, i + 1)
  }

  /** The index just past the last non-whitespace character of s[lo..j], or
      `lo` when there is none. */
  function SkipTrailing(s: string, lo: nat, j: nat): (n: nat)
    requires lo <= j <= |s|
    ensures lo <= n <= j
    ensures forall k :: n <= k < j ==> IsWhitespace(s[k])
    ensures lo < n ==> !IsWhitespace(s[n - 1])
    decreases j
  {
    if j == lo || !IsWhitespace(s[j - 1]) then j else SkipTrailing(s, lo, j - 1)
  }

  /** `String.prototype.trim`: leading and trailing whitespace removed. */
  function Trim(s: string): string
  {
    var i := SkipLeading(s, 0);
    s[i..SkipTrailing(s, i, |s|)]
  }

  /** The trimmed string is the slice s[i..j] of the input, with only
      whitespace before i and from j on. */
  lemma TrimSlice(s: string)
    ensures exists i, j :: (0 <= i <= j <= |s| && Trim(s) == s[i..j] &&
      (forall k :: 0 <= k < i ==> IsWhitespace(s[k])) &&
      (forall k :: j <= k < |s| ==> IsWhitespace(s[k])))
  {
    var i := SkipLeading(s, 0);
    var j := SkipTrailing(s, i, |s|);
    assert Trim(s) == s[i..j];
  }

  /** Neither end of the trimmed string is whitespace. */
  lemma TrimEnds(s: string)
    ensures Trim(s) != [] ==> !IsWhitespace(Trim(s)[0]) && !IsWhitespace(Trim(s)[|Trim(s)| - 1])
  {
    var i := SkipLeading(s, 0);
    var j := SkipTrailing(s, i, |s|);
    if i < j {
      assert Trim(s)[0] == s[i];
      assert Trim(s)[|Trim(s)| - 1] == s[j - 1];
    }
  }

  /** Trimming leaves nothing exactly when the input is all whitespace. */
  lemma TrimEmpty(s: string)
    ensures Trim(s) == [] <==> forall k :: 0 <= k < |s| ==> IsWhitespace(s[k])
  {
    var i := SkipLeading(s, 0);
    var j := SkipTrailing(s, i, |s|);
    assert |Trim(s)| == j - i;
  }

  /** Trimming twice is trimming once. */
  lemma TrimIdempotent(s: string)
    ensures Trim(Trim(s)) == Trim(s)
  {
    var r := Trim(s);
    TrimEnds(s);
    assert SkipLeading(r, 0) == 0;
    assert SkipTrailing(r, 0, |r|) == |r|;
  }

  // ---------------------------------------------------------------------------
  // handleSubmit

  const EmptyMessage := "Please enter your email address"
  const InvalidMessage := "Please enter a valid email address"
  const SuccessMessage := "\U{2713} Thanks! We'll notify you when we launch."
  const FailureMessage := "Something went wrong. Please try again."

  /** What the handler does with the input's value before anything is sent. */
  datatype Decision =
    | MissingEmail           // shows EmptyMessage and returns
    | InvalidEmail           // shows InvalidMessage and returns
    | Send(email: string)    // disables the button and calls sendEmail(email)

  /** The validation order of lines 206-228 of the source. */
  function Decide(inputValue: string): (d: Decision)
    ensures d.MissingEmail? <==> Trim(inputValue) == []
    ensures d.InvalidEmail? <==> Trim(inputValue) != [] && !ValidateEmail(Trim(inputValue))
    ensures d.Send? <==> Trim(inputValue) != [] && ValidateEmail(Trim(inputValue))
    ensures d.Send? ==> d.email == Trim(inputValue)
  {
    var email := Trim(inputValue);
    if email == [] then MissingEmail
    else if !ValidateEmail(email) then InvalidEmail
    else Send(email)
  }

  /** The message the form ends with, and its class. */
  datatype MessageKind = Error | Success
  datatype Outcome = Outcome(text: string, kind: MessageKind, clearsInput: bool)

  /** The whole handler, given whether the promise of sendEmail resolves
      (the simulated sender of lines 241-255 always resolves). */
  function Submit(inputValue: string, delivered: bool): (o: Outcome)
    ensures o.kind == Success <==> Decide(inputValue).Send? && delivered
    ensures o.clearsInput <==> o.kind == Success
    ensures Trim(inputValue) == [] ==> o.text == EmptyMessage
    ensures Trim(inputValue) != [] && !ValidateEmail(Trim(inputValue)) ==> o.text == InvalidMessage
    ensures o.kind == Success ==> o.text == SuccessMessage
    ensures Decide(inputValue).Send? && !delivered ==> o.text == FailureMessage && o.kind == Error
  {
    match Decide(inputValue)
    case MissingEmail => Outcome(EmptyMessage, Error, false)
    case InvalidEmail => Outcome(InvalidMessage, Error, false)
    case Send(_) =>
      if delivered then Outcome(SuccessMessage, Success, true)
      else Outcome(FailureMessage, Error, false)
  }

  /** An address the handler sends is never empty, never has whitespace at
      either end, and matches the expression. */
  lemma SentAddressIsValid(inputValue: string)
    requires Decide(inputValue).Send?
    ensures var e := Decide(inputValue).email;
      e != [] && RegexMatch(e) && NoWhitespace(e) && multiset(e)['@'] == 1
  {
    var e := Decide(inputValue).email;
    ValidateEmailMatchesRegex(e);
    ValidateEmailExact(e);
  }
}
