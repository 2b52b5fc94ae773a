/** The demo-request form of the landing page (components/hero-section.tsx): a two-stage
    email check, then a simulated 500 ms request, then a success panel with a reset. */
module Hero {
  import opened Auth

  const MissingAtMessage := "Please enter a valid email address"
  const MalformedMessage := "Please enter a valid email address (e.g., name@example.com)"
  const SubmitDelayMs: nat := 500

  /** The characters JavaScript's `\s` class matches: the ASCII blanks, no-break space,
      the Unicode space separators, the line and paragraph separators and the BOM. */
  predicate IsJsSpace(c: char) {
    || c == '\t' || c == '\n' || c == '\U{000B}' || c == '\U{000C}' || c == '\r' || c == ' '
    || c == '\U{00A0}' || c == '\U{1680}' || ('\U{2000}' <= c <= '\U{200A}')
    || c == '\U{2028}' || c == '\U{2029}' || c == '\U{202F}' || c == '\U{205F}'
    || c == '\U{3000}' || c == '\U{FEFF}'
  }

  /** The class `[^\s@]`. */
  predicate IsTokenChar(c: char) {
    !IsJsSpace(c) && c != '@'
  }

  /** `s[lo..hi]` matches `[^\s@]+`. */
  predicate TokenRun(s: string, lo: int, hi: int)
    requires 0 <= lo <= hi <= |s|
  {
    lo < hi && forall k | lo <= k < hi :: IsTokenChar(s[k])
  }

  /** The meaning of `/^[^\s@]+@[^\s@]+\.[^\s@]+$/.test(s)` (line 32): `s` splits as
      run, '@' at `i`, run, '.' at `j`, run. */
  ghost predicate RegexAccepts(s: string) {
    exists i, j | 0 <= i < j < |s| ::
      && TokenRun(s, 0, i) && s[i] == '@'
      && TokenRun(s, i + 1, j) && s[j] == '.'
      && TokenRun(s, j + 1, |s|)
  }

  /** The position of the first `c` in `s`. */
  function IndexOf(s: string, c: char): (r: nat)
    requires c in s
    ensures r < |s| && s[r] == c
    ensures forall k | 0 <= k < r :: s[k] != c
  {
    if s[0] == c then 0 else 1 + IndexOf(s[1..], c)
  }

  /** The accepted shape in plain terms: no whitespace, exactly one '@', a non-empty part
      before it, and after it a '.' that is neither the first nor the last character. */
  predicate EmailShape(s: string) {
    && (forall k | 0 <= k < |s| :: !IsJsSpace(s[k]))
    && '@' in s
    && var at := IndexOf(s, '@');
    && 0 < at
    && (forall k | at < k < |s| :: s[k] != '@')
    && (exists k | at + 1 < k < |s| - 1 :: s[k] == '.')
  }

  lemma RegexHasShape(s: string)
    requires RegexAccepts(s)
    ensures EmailShape(s)
  {
  }

  lemma ShapeMatchesRegex(s: string)
    requires EmailShape(s)
    ensures RegexAccepts(s)
  {
  }

  /** The regex accepts exactly the strings of `EmailShape`. */
  lemma RegexIsEmailShape(s: string)
    ensures RegexAccepts(s) <==> EmailShape(s)
  {
  }

  /** Every string the regex accepts contains '@': the `includes("@")` test (line 26)
      never rejects what the regex would accept, it only picks the message. */
  lemma RegexImpliesAt(s: string)
    requires RegexAccepts(s)
    ensures '@' in s
  {
  }

  datatype SubmitCheck = Accepted | Rejected(message: string)

  /** The validation of `handleSubmit` (lines 26-36). */
  function CheckEmail(email: string): (r: SubmitCheck)
    ensures r.Accepted? <==> RegexAccepts(email)
    ensures '@' !in email ==> r == Rejected(MissingAtMessage)
    ensures '@' in email && !RegexAccepts(email) ==> r == Rejected(MalformedMessage)
  {
    RegexIsEmailShape(email);
    if '@' !in email then Rejected(MissingAtMessage)
    else if !EmailShape(email) then Rejected(MalformedMessage)
    else Accepted
  }

  /** The simulated request timer (lines 41-46) and the email its closure captured. */
  datatype PendingSubmit = PendingSubmit(armedAt: nat, email: string)

  class HeroSection {
    var mounted: bool
    var email: string
    var error: string
    var isSubmitted: bool
    var isLoading: bool
    /** The 500 ms timer; it is never cleared, not even on unmount. */
    var pending: Option<PendingSubmit>
    /** The emails written to the console by the timer (line 45). */
    var requestLog: seq<string>

    ghost predicate Valid()
      reads this
    {
      && (mounted ==> (pending.Some? <==> isLoading))
      && (pending.Some? ==> pending.value.email == email)
      && !(isLoading && isSubmitted)
    }

    /** The email form is rendered, rather than the success panel (line 111). */
    predicate FormShown()
      reads this
    {
      mounted && !isSubmitted
    }

    /** The input and the submit button are enabled (lines 153, 168). */
    predicate FormEnabled()
      reads this
    {
      FormShown() && !isLoading
    }

    /** The form as first rendered. */
    predicate Pristine()
      reads this
    {
      email == "" && error == "" && !isSubmitted && !isLoading
    }

    constructor Mount()
      ensures Valid() && mounted && Pristine() && pending == None && requestLog == []
    {
      mounted, email, error, isSubmitted, isLoading := true, "", "", false, false;
      pending, requestLog := None, [];
    }

    /** The input's `onChange` (lines 147-150) sets the email and clears the error. */
    method Type(value: string)
      requires Valid() && FormEnabled()
      modifies this`email, this`error
      ensures Valid()
      ensures email == value && error == ""
    {
      email, error := value, "";
    }

    /** `handleSubmit` (lines 21-47): the error is cleared; a rejected email sets the
        check's message and starts nothing; an accepted one starts loading and arms the
        timer. */
    method Submit(now: nat) returns (check: SubmitCheck)
      requires Valid() && FormEnabled()
      modifies this`error, this`isLoading, this`pending
      ensures Valid()
      ensures check == CheckEmail(email)
      ensures check.Accepted? <==> RegexAccepts(email)
      ensures check.Rejected? ==> error == check.message && !isLoading && pending == None
      ensures check.Accepted? ==> error == "" && isLoading && pending == Some(PendingSubmit(now, email))
    {
      error := "";
      check := CheckEmail(email);
      match check {
        case Rejected(message) =>
          error := message;
        case Accepted =>
          isLoading := true;
          pending := Some(PendingSubmit(now, email));
      }
    }

    /** The timer fires 500 ms after the submit: the email it captured is logged and,
        if the form is still mounted, it shows the success panel with the email unchanged. */
    method SubmitTimerFired(now: nat)
      requires Valid() && pending.Some? && now == pending.value.armedAt + SubmitDelayMs
      modifies this`isSubmitted, this`isLoading, this`pending, this`requestLog
      ensures Valid() && pending == None
      ensures requestLog == old(requestLog) + [old(pending).value.email]
      ensures old(mounted) ==> isSubmitted && !isLoading
      ensures !old(mounted) ==> isSubmitted == old(isSubmitted) && isLoading == old(isLoading)
    {
      requestLog := requestLog + [pending.value.email];
      pending := None;
      if mounted {
        isSubmitted, isLoading := true, false;
      }
    }

    /** `resetForm` (lines 49-53), wired to "Request another demo" (line 128), returns the
        form to the state it was mounted in. */
    method ResetForm()
      requires Valid() && mounted && !isLoading
      modifies this`email, this`isSubmitted, this`error
      ensures Valid() && Pristine() && pending == None
    {
      email, isSubmitted, error := "", false, "";
    }

    method Unmount()
      requires Valid() && mounted
      modifies this`mounted
      ensures Valid() && !mounted
    {
      mounted := false;
    }
  }

  /** Resetting twice leaves the form as resetting once does. */
  method ResetIsIdempotent(h: HeroSection)
    requires h.Valid() && h.mounted && !h.isLoading
    modifies h
    ensures h.Valid() && h.Pristine() && h.pending == None
    ensures h.requestLog == old(h.requestLog)
  {
    h.ResetForm();
    ghost var once := (h.email, h.error, h.isSubmitted, h.isLoading, h.pending);
    h.ResetForm();
    assert (h.email, h.error, h.isSubmitted, h.isLoading, h.pending) == once;
  }

  /** A full accepted request: submit, then the timer, ends on the success panel showing
      the submitted email. */
  method AcceptedRequestSucceeds(h: HeroSection, now: nat)
    requires h.Valid() && h.FormEnabled() && RegexAccepts(h.email)
    modifies h
    ensures h.Valid() && h.isSubmitted && !h.isLoading && !h.FormShown()
    ensures h.email == old(h.email) && h.error == ""
    ensures h.requestLog == old(h.requestLog) + [old(h.email)]
  {
    var check := h.Submit(now);
    h.SubmitTimerFired(now + SubmitDelayMs);
  }
}
