/**
  The issuer page: the form a user fills in to share a password, as an
  immutable record, and every handler of the page as a pure transition.
  Network replies, the clock and the page origin are inputs; the requests the
  page would send are outputs.
 */
module Issuer {
  import opened Wrappers
  import JsString
  import Expiry
  import Carousel

  /** Bounds on a password's JavaScript length, and on the generated size. */
  const MinLength: int := 4
  const MaxLength: int := 128

  /** Bounds of the two sliders. */
  const MinDays: int := 1
  const MaxDays: int := 7
  const MinViews: int := 1
  const MaxViews: int := 5

  // English keys of the page's messages.
  const TooShortMessage: string := "The password must be at least 4 characters."
  const TooLongMessage: string := "The password cannot be more than 128 characters."
  const BlankMessage: string := "Please enter a password before generating the link."
  const GenerateFailedMessage: string := "Error generating password. Try again."
  const LinkFailedMessage: string := "Error generating link. Try again."

  /** The page's state, one field per `useState` of the component. */
  datatype Form = Form(
    password: string,
    length: int,
    includeSymbols: bool,
    includeNumbers: bool,
    daysAvailable: int,
    maxViews: int,
    linkGenerated: bool,
    shareLink: string,
    copied: bool,
    currentMessageIndex: nat,
    showOptions: bool,
    passwordError: string)

  /** The state a freshly mounted page starts in. */
  const Initial: Form :=
    Form("", 16, true, true, 1, 1, false, "", false, Carousel.Start, false, "")

  /**
    What the page reads from its surroundings: the translation function `t`
    the locale hook hands it, and `window.location.origin`.
   */
  datatype Env = Env(t: string -> string, origin: string)

  /** Body of `POST /share/generate`. */
  datatype GeneratePayload = GeneratePayload(
    size: int,
    numbers: bool,
    specialChar: bool,
    viewsLeft: int,
    expireAt: Option<int>)

  /** Body of `POST /share/password`. */
  datatype CustomPayload = CustomPayload(
    password: string,
    viewsLeft: int,
    expireAt: Option<int>)

  /** A request the page sends to the backend. */
  datatype Request = Generate(generate: GeneratePayload) | Custom(custom: CustomPayload)

  /** How a request ended: a 2xx reply carrying `token_url`, or anything else. */
  datatype Outcome = Success(tokenUrl: string) | Failure

  /** The invariant every reachable form keeps. */
  predicate Valid(f: Form) {
    && MinLength <= f.length <= MaxLength
    && MinDays <= f.daysAvailable <= MaxDays
    && MinViews <= f.maxViews <= MaxViews
    && f.currentMessageIndex < Carousel.MessageCount
    && (f.linkGenerated <==> f.shareLink != "")
  }

  /** What the backend may expect of a request: the ranges the form's controls allow. */
  predicate WellFormed(r: Request) {
    match r
    case Generate(p) =>
      MinLength <= p.size <= MaxLength && MinViews <= p.viewsLeft <= MaxViews
    case Custom(p) =>
      && !JsString.IsBlank(p.password)
      && MinLength <= JsString.Length(p.password) <= MaxLength
      && MinViews <= p.viewsLeft <= MaxViews
  }

  /** Fields the user edits, which no network reply and no reset touches. */
  predicate SameOptions(f: Form, g: Form) {
    && f.length == g.length
    && f.includeSymbols == g.includeSymbols
    && f.includeNumbers == g.includeNumbers
    && f.daysAvailable == g.daysAvailable
    && f.maxViews == g.maxViews
    && f.showOptions == g.showOptions
  }

  /**
    Advisory validation run on every keystroke: the message to show, empty
    for none. An empty field is not an error.
   */
  function ValidatePassword(t: string -> string, pwd: string): (err: string)
    ensures pwd == "" ==> err == ""
    ensures pwd != "" && JsString.Length(pwd) < MinLength ==> err == t(TooShortMessage)
    ensures JsString.Length(pwd) > MaxLength ==> err == t(TooLongMessage)
    ensures MinLength <= JsString.Length(pwd) <= MaxLength ==> err == ""
  {
    if pwd == "" then ""
    else if JsString.Length(pwd) < 4 then t(TooShortMessage)
    else if JsString.Length(pwd) > 128 then t(TooLongMessage)
    else ""
  }

  /**
    The guard of the custom-password path: the message that refuses the
    request, or None when the request may go out. Blank input is refused
    first, then a short password, then a long one.
   */
  function LinkGuard(t: string -> string, pwd: string): (refusal: Option<string>)
    ensures refusal.None? <==>
      !JsString.IsBlank(pwd) && MinLength <= JsString.Length(pwd) <= MaxLength
    ensures JsString.IsBlank(pwd) ==> refusal == Some(t(BlankMessage))
    ensures !JsString.IsBlank(pwd) && JsString.Length(pwd) < MinLength ==>
      refusal == Some(t(TooShortMessage))
    ensures !JsString.IsBlank(pwd) && JsString.Length(pwd) > MaxLength ==>
      refusal == Some(t(TooLongMessage))
  {
    JsString.TrimEmptyIffBlank(pwd);
    if JsString.Trim(pwd) == "" then Some(t(BlankMessage))
    else if JsString.Length(pwd) < 4 then Some(t(TooShortMessage))
    else if JsString.Length(pwd) > 128 then Some(t(TooLongMessage))
    else None
  }

  /** The payload of the random-password path, read from the form at click time. */
  function GenerateRequest(f: Form, now: int): (p: GeneratePayload)
    ensures p.size == f.length && p.numbers == f.includeNumbers && p.specialChar == f.includeSymbols
    ensures p.viewsLeft == f.maxViews
    ensures p.expireAt.Some? <==> f.daysAvailable > 1
    ensures p.expireAt.Some? ==> p.expireAt.value == now + f.daysAvailable * Expiry.DayMs
  {
    GeneratePayload(
      f.length, f.includeNumbers, f.includeSymbols, f.maxViews,
      Expiry.RandomPathExpiry(now, f.daysAvailable))
  }

  /** The payload of the custom-password path: the password verbatim. */
  function CustomRequest(f: Form, now: int): (p: CustomPayload)
    ensures p.password == f.password && p.viewsLeft == f.maxViews
    ensures p.expireAt.Some? <==> f.daysAvailable > 1
    ensures p.expireAt.Some? ==> p.expireAt.value == now + f.daysAvailable * Expiry.DayMs + Expiry.HourMs
  {
    CustomPayload(f.password, f.maxViews, Expiry.CustomPathExpiry(now, f.daysAvailable))
  }

  /** The link shown after success: `origin + "/view/" + token`, without a trailing slash. */
  function ShareLink(origin: string, token: string): (link: string)
    ensures |link| == |origin| + 6 + |token|
    ensures link[..|origin|] == origin
    ensures link[|origin|..|origin| + 6] == "/view/"
    ensures link[|origin| + 6..] == token
  {
    origin + "/view/" + token
  }

  /**
    A reply arriving: success shows the link, failure shows `failureKey`
    translated. The form's inputs are kept either way.
   */
  function Settle(env: Env, f: Form, outcome: Outcome, failureKey: string): (g: Form)
    ensures SameOptions(f, g) && g.password == f.password && g.copied == f.copied
    ensures g.currentMessageIndex == f.currentMessageIndex
    ensures outcome.Success? ==>
      g.linkGenerated && g.shareLink == ShareLink(env.origin, outcome.tokenUrl)
      && g.passwordError == f.passwordError
    ensures outcome.Failure? ==>
      g.linkGenerated == f.linkGenerated && g.shareLink == f.shareLink
      && g.passwordError == env.t(failureKey)
  {
    match outcome
    case Success(token) => f.(shareLink := ShareLink(env.origin, token), linkGenerated := true)
    case Failure => f.(passwordError := env.t(failureKey))
  }

  /**
    Clicking "Generate link": on refusal only the message changes and nothing
    is sent; otherwise the message is cleared and the custom payload is sent.
   */
  function HandleGenerateLink(env: Env, f: Form, now: int): (r: (Form, Option<CustomPayload>))
    ensures r.1.Some? <==> LinkGuard(env.t, f.password).None?
    ensures r.1.Some? ==> r.1.value == CustomRequest(f, now) && r.0 == f.(passwordError := "")
    ensures r.1.None? ==> r.0 == f.(passwordError := LinkGuard(env.t, f.password).value)
  {
    match LinkGuard(env.t, f.password)
    case Some(msg) => (f.(passwordError := msg), None)
    case None => (f.(passwordError := ""), Some(CustomRequest(f, now)))
  }

  /** `parseInt(v) || 4` clamped into [4, 128]; None is a NaN parse. */
  function ClampSize(parsed: Option<int>): (n: int)
    ensures MinLength <= n <= MaxLength
    ensures parsed.Some? && MinLength <= parsed.value <= MaxLength ==> n == parsed.value
    ensures parsed.None? || parsed.value < MinLength ==> n == MinLength
    ensures parsed.Some? && parsed.value > MaxLength ==> n == MaxLength
  {
    var value := if parsed.None? || parsed.value == 0 then 4 else parsed.value;
    var atLeast := if value > 4 then value else 4;
    if atLeast < 128 then atLeast else 128
  }

  /**
    The value a range input reports for a requested position: the browser
    keeps it within the element's `min` and `max`.
   */
  function SliderValue(position: int, lo: int, hi: int): (v: int)
    requires lo <= hi
    ensures lo <= v <= hi
    ensures lo <= position <= hi ==> v == position
  {
    if position < lo then lo else if position > hi then hi else position
  }

  /** "Create new password": clears the link and the password entry, keeps every option. */
  function Reset(f: Form): (g: Form)
    ensures !g.linkGenerated && g.shareLink == "" && g.password == ""
    ensures !g.copied && g.passwordError == ""
    ensures SameOptions(f, g) && g.currentMessageIndex == f.currentMessageIndex
  {
    f.(linkGenerated := false, shareLink := "", password := "", copied := false, passwordError := "")
  }

  /** The user-visible events of the page. */
  datatype Event =
    | PasswordTyped(text: string)
    | GenerateClicked(now: int)
    | GenerateReplied(outcome: Outcome)
    | LinkClicked(now: int)
    | LinkReplied(outcome: Outcome)
    | SizeEntered(parsed: Option<int>)
    | SymbolsChecked(checked: bool)
    | NumbersChecked(checked: bool)
    | OptionsToggled
    | DaysSlid(position: int)
    | ViewsSlid(position: int)
    | CopyClicked
    | CopyExpired
    | Tick
    | ResetClicked

  /**
    One event: the next form, and the request sent, if any. The
    "Generate link" button is disabled while the password is shorter than
    four, so a click then does nothing.
   */
  function Step(env: Env, f: Form, e: Event): (r: (Form, Option<Request>))
    ensures r.1.Some? <==>
      e.GenerateClicked?
      || (e.LinkClicked? && JsString.Length(f.password) >= MinLength
          && LinkGuard(env.t, f.password).None?)
    ensures e.GenerateClicked? ==> r == (f, Some(Generate(GenerateRequest(f, e.now))))
    ensures e.LinkClicked? && JsString.Length(f.password) < MinLength ==> r == (f, None)
    ensures e.LinkClicked? && JsString.Length(f.password) >= MinLength ==>
      var (g, sent) := HandleGenerateLink(env, f, e.now);
      r.0 == g && r.1 == (if sent.Some? then Some(Custom(sent.value)) else None)
  {
    match e
    case PasswordTyped(text) =>
      (f.(password := text, passwordError := ValidatePassword(env.t, text)), None)
    case GenerateClicked(now) =>
      (f, Some(Generate(GenerateRequest(f, now))))
    case GenerateReplied(outcome) =>
      (Settle(env, f, outcome, GenerateFailedMessage), None)
    case LinkClicked(now) =>
      if JsString.Length(f.password) < 4 then (f, None)
      else
        var (g, sent) := HandleGenerateLink(env, f, now);
        (g, if sent.Some? then Some(Custom(sent.value)) else None)
    case LinkReplied(outcome) =>
      (Settle(env, f, outcome, LinkFailedMessage), None)
    case SizeEntered(parsed) =>
      (f.(length := ClampSize(parsed)), None)
    case SymbolsChecked(checked) =>
      (f.(includeSymbols := checked), None)
    case NumbersChecked(checked) =>
      (f.(includeNumbers := checked), None)
    case OptionsToggled =>
      (f.(showOptions := !f.showOptions), None)
    case DaysSlid(position) =>
      (f.(daysAvailable := SliderValue(position, 1, 7)), None)
    case ViewsSlid(position) =>
      (f.(maxViews := SliderValue(position, 1, 5)), None)
    case CopyClicked =>
      (f.(copied := true), None)
    case CopyExpired =>
      (f.(copied := false), None)
    case Tick =>
      (f.(currentMessageIndex := Carousel.Next(f.currentMessageIndex)), None)
    case ResetClicked =>
      (Reset(f), None)
  }

  /** A sequence of events from `f`: the final form and the requests sent, in order. */
  function Run(env: Env, f: Form, events: seq<Event>): (Form, seq<Request>)
    decreases |events|
  {
    if events == [] then (f, [])
    else
      var (g, sent) := Step(env, f, events[0]);
      var (h, rest) := Run(env, g, events[1..]);
      (h, (if sent.Some? then [sent.value] else []) + rest)
  }

  /** The initial form satisfies the invariant. */
  lemma InitialValid()
    ensures Valid(Initial)
  {
  }

  /** Every event keeps the invariant, and any request it sends is well formed. */
  lemma StepPreservesValid(env: Env, f: Form, e: Event)
    requires Valid(f)
    ensures Valid(Step(env, f, e).0)
    ensures Step(env, f, e).1.Some? ==> WellFormed(Step(env, f, e).1.value)
  {
  }

  /** From a valid form, any run stays valid and sends only well-formed requests. */
  lemma {:induction false} RunPreservesValid(env: Env, f: Form, events: seq<Event>)
    requires Valid(f)
    ensures Valid(Run(env, f, events).0)
    ensures forall i :: 0 <= i < |Run(env, f, events).1| ==> WellFormed(Run(env, f, events).1[i])
    decreases |events|
  {
    if events != [] {
      StepPreservesValid(env, f, events[0]);
      var (g, sent) := Step(env, f, events[0]);
      RunPreservesValid(env, g, events[1..]);
    }
  }

  /**
    For a non-blank password, the guard refuses exactly when keystroke
    validation shows a message, and with that same message.
   */
  lemma GuardAgreesWithValidation(t: string -> string, pwd: string)
    requires !JsString.IsBlank(pwd)
    requires t(TooShortMessage) != "" && t(TooLongMessage) != ""
    ensures LinkGuard(t, pwd).None? <==> ValidatePassword(t, pwd) == ""
    ensures LinkGuard(t, pwd).Some? ==> LinkGuard(t, pwd).value == ValidatePassword(t, pwd)
  {
  }

  /**
    Because the button is disabled below four code units, clicking it never
    produces the "at least 4" refusal: the message is left alone, cleared,
    or one of the other two refusals.
   */
  lemma LinkClickNeverReportsTooShort(env: Env, f: Form, now: int)
    ensures Step(env, f, LinkClicked(now)).0.passwordError in
      {f.passwordError, "", env.t(BlankMessage),
       env.t(TooLongMessage)}
  {
  }

  /** Different tokens give different links for the same origin. */
  lemma ShareLinkInjective(origin: string, t1: string, t2: string)
    requires ShareLink(origin, t1) == ShareLink(origin, t2)
    ensures t1 == t2
  {
    assert t1 == ShareLink(origin, t1)[|origin| + 6..];
  }

  /** The link ends with the token itself: no slash is appended. */
  lemma ShareLinkEndsWithToken(origin: string, token: string)
    requires token != ""
    ensures ShareLink(origin, token)[|ShareLink(origin, token)| - 1] == token[|token| - 1]
  {
    var link := ShareLink(origin, token);
    assert link[|link| - 1] == link[|origin| + 6..][|token| - 1];
  }

  /** Resetting twice is resetting once. */
  lemma ResetIdempotent(f: Form)
    ensures Reset(Reset(f)) == Reset(f)
  {
  }

  /**
    A reset returns to the initial form exactly when the options and the
    carousel are still at their initial values: reset restores no default.
   */
  lemma ResetRestoresInitialIff(f: Form)
    ensures Reset(f) == Initial <==> SameOptions(f, Initial) && f.currentMessageIndex == Carousel.Start
  {
  }

  /** A failed reply on either path changes nothing but the error message. */
  lemma FailureOnlySetsError(env: Env, f: Form, e: Event)
    requires e == GenerateReplied(Failure) || e == LinkReplied(Failure)
    ensures Step(env, f, e).0 == f.(passwordError := Step(env, f, e).0.passwordError)
    ensures Step(env, f, e).0.passwordError ==
      env.t(if e.GenerateReplied? then GenerateFailedMessage else LinkFailedMessage)
  {
  }

  /** With the default options the generate payload omits `expire_at`. */
  lemma DefaultGenerateRequest(now: int)
    ensures GenerateRequest(Initial, now) == GeneratePayload(16, true, true, 1, None)
  {
  }

  /**
    A two-character password is refused by the guard with the "at least 4"
    message, and through the page the disabled button sends nothing.
   */
  lemma ShortPasswordRefused(env: Env, now: int)
    ensures HandleGenerateLink(env, Initial.(password := "ab"), now) ==
      (Initial.(password := "ab", passwordError := env.t(TooShortMessage)), None)
    ensures Step(env, Initial.(password := "ab"), LinkClicked(now)) == (Initial.(password := "ab"), None)
  {
    assert !JsString.IsWhiteSpace("ab"[0]);
    assert JsString.Length("ab") == 2 by {
      assert "ab"[1..][1..] == [];
    }
  }
}
