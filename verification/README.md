# Secure password share: issuer page and locale engine in Dafny

This project models the client-side logic of a password-sharing web page.
A user types a password, or asks the backend to generate one. The user picks
how many days the secret stays available (1–7) and how many views it allows
(1–5). The page then requests a one-time link from the backend. Two parts are
modelled:

- **The issuer page** (`src/app/page.tsx`), in module `Issuer`. The component's
  twelve `useState` fields become one immutable `Form` record. Every handler
  becomes a pure transition, and `Step` dispatches over the page's events. It
  covers:
  - keystroke validation and the guard of the "Generate link" path;
  - the two request payloads, with their expiry offsets (module `Expiry`);
  - the share link built on a successful reply, and the per-path error message on a failed one;
  - the size clamp, the sliders and checkboxes;
  - the copy flag, the reset, and the info-message carousel (module `Carousel`).
- **The locale engine** (`src/hooks/useTranslation.ts`), in module `Translation`.
  It covers locale detection from `navigator.language`, the Brazilian
  Portuguese and Spanish tables as `map<string, string>` (split into the
  sections the source file lists), and the lookup `t(key)` with its fallback
  to the key.
- **The page's strings under the hook**, in module `PageText`. It joins the
  two: the page's `t` for a detected locale, the set of English keys the page
  passes to `t`, and what the tables guarantee about them.

Supporting modules: `Wrappers` (`Option`) and `JsString`. `JsString` holds the
JavaScript string primitives the page relies on:
- `length`, counted in UTF-16 code units, so a character outside the Basic
  Multilingual Plane counts twice;
- `trim`, with the ECMAScript white-space and line-terminator set;
- `startsWith`.

Inputs that come from outside the page are parameters:
- the clock reading `now`, in milliseconds;
- the page origin and the translation function `t` the hook returns (`Issuer.Env`). `PageText.HookEnv` builds that environment from a locale;
- the backend's reply, as `Outcome = Success(tokenUrl) | Failure`;
- the parsed number typed into the size box, as `Option<int>` where None is a NaN parse.

Requests the page sends are outputs of `Step` (`Issuer.Request`).

The model follows the code in these behaviours, which a reader may not expect:
- The link is `origin + "/view/" + token`, with no trailing slash (`Issuer.ShareLinkEndsWithToken`).
- "Create new password" clears the link, the password, the copy flag and the error. It does not restore the size, the checkboxes, the sliders, the options panel or the carousel to their defaults (`Issuer.ResetRestoresInitialIff`).
- The two paths report failure with different messages (`PageText.FailureMessagesDiffer`).
- The link guard refuses a whitespace-only password with the "Please enter a password" message, whatever its length. Through the page, such a password shorter than 4 cannot be submitted at all, because the button is disabled; one of length 4–128 is refused. So a password of length 4–128 does not always produce a request.
- Each click on "Copy" schedules its own 2-second timeout. An earlier timeout is not cancelled, so a later click does not restart the delay. The timeout is an input event (`CopyExpired`).
- The "Generate link" button is disabled while the password is shorter than 4 code units. So through the page, the guard's "at least 4" branch is never reached (`Issuer.LinkClickNeverReportsTooShort`).

## Model

| member | source | states |
|---|---|---|
| `JsString.Length` | src/app/page.tsx:43-44 | JavaScript's `length` lies between the character count and twice it, and is zero only for the empty string |
| `JsString.BmpLength` | src/app/page.tsx:43-44 | for text without astral characters, the length the page checks equals the character count |
| `JsString.TrimStart` | src/app/page.tsx:87 | dropping leading white space leaves a suffix of the input |
| `JsString.TrimStartDropsWhiteSpace` | src/app/page.tsx:87 | everything dropped from the front is white space |
| `JsString.TrimStartKeepsNoWhiteSpaceFirst` | src/app/page.tsx:87 | what is kept does not start with white space |
| `JsString.TrimEnd` | src/app/page.tsx:87 | dropping trailing white space leaves a prefix of the input |
| `JsString.TrimEndDropsWhiteSpace` | src/app/page.tsx:87 | everything dropped from the back is white space |
| `JsString.TrimEndKeepsNoWhiteSpaceLast` | src/app/page.tsx:87 | what is kept does not end with white space |
| `JsString.Trim` | src/app/page.tsx:87 | `password.trim()` is a contiguous piece of the password with only white space before and after it and none at either of its own ends, which fixes it uniquely (`JsString.TrimUnique`); it is empty exactly when the password is all white space |
| `JsString.TrimUnique` | src/app/page.tsx:87 | any piece of the password with only white space around it and none at its own ends is `password.trim()`: the contract of `Trim` determines its result |
| `JsString.TrimRemovesOnlyWhiteSpace` | src/app/page.tsx:87 | the kept piece starts right after the leading white space, and everything before and after it is white space |
| `JsString.TrimEmptyIffBlank` | src/app/page.tsx:87 | `password.trim()` is empty exactly when the password is all white space |
| `JsString.StartsWith` | src/hooks/useTranslation.ts:140-142 | `s.startsWith(p)` holds exactly when `s` is `p` followed by some rest |
| `Translation.Detect` | src/hooks/useTranslation.ts:137-146 | pt-BR iff the language starts with "pt"; es iff it starts with "es" and not "pt"; otherwise en, including an undefined or empty language |
| `Translation.DetectCode` | src/hooks/useTranslation.ts:140-146 | detection maps each locale's own tag back to that locale |
| `Translation.TablesShareKeys` | src/hooks/useTranslation.ts:5-129 | the pt-BR and es tables have identical key sets |
| `Translation.PtBRValuesNonEmpty` | src/hooks/useTranslation.ts:5-67 | no value in the pt-BR table is the empty string |
| `Translation.EsValuesNonEmpty` | src/hooks/useTranslation.ts:68-129 | no value in the es table is the empty string |
| `Translation.Lookup` | src/hooks/useTranslation.ts:154-155 | the fallback from the table's value to the key returns the key or the key's table value, and is empty only for the empty key (the string-only reading; see Findings) |
| `Translation.SourceLookup` | src/hooks/useTranslation.ts:154-155 | as JavaScript evaluates the hook's indexing of the table object followed by the fallback to the key: it agrees with `Lookup` on every key the table has and on every key that is not an `Object.prototype` name, and yields the inherited member for such a name the table lacks |
| `Translation.SourceLookupEscapesFallback` | src/hooks/useTranslation.ts:154-155 | in pt-BR, `t("toString")` yields the inherited function, not the string `Lookup` promises |
| `Translation.LookupExact` | src/hooks/useTranslation.ts:155 | over a table without empty values, the lookup returns the table's value for a key it has and the key itself for any other key |
| `Translation.Translate` | src/hooks/useTranslation.ts:149-156 | `t` returns an empty string only for the empty key, in every locale |
| `Translation.PtBRLookup` | src/hooks/useTranslation.ts:149-156 | in pt-BR, `t` translates a key the table has to its table value and returns any other key unchanged |
| `Translation.EsLookup` | src/hooks/useTranslation.ts:149-156 | in es, `t` translates a key the table has to its table value and returns any other key unchanged |
| `Translation.InitialIsIdentity` | src/hooks/useTranslation.ts:133-152 | before detection runs the locale is en, so `t` returns every key unchanged |
| `Translation.PtBRErrorLookup` | src/hooks/useTranslation.ts:62-66 | in pt-BR each error message is translated to its entry in the error section |
| `Translation.EsErrorLookup` | src/hooks/useTranslation.ts:124-128 | in es each error message is translated to its entry in the error section |
| `Translation.PtBRErrorsInjective` | src/hooks/useTranslation.ts:62-66 | no two pt-BR error messages share a translation |
| `Translation.EsErrorsInjective` | src/hooks/useTranslation.ts:124-128 | no two es error messages share a translation |
| `Translation.PtBRErrorTranslationsDistinct` | src/hooks/useTranslation.ts:62-66 | in pt-BR, `t` maps distinct error messages to distinct strings |
| `Translation.EsErrorTranslationsDistinct` | src/hooks/useTranslation.ts:124-128 | in es, `t` maps distinct error messages to distinct strings |
| `PageText.HookEnv` | src/app/page.tsx:7 | the page's `t` is the hook's translation for the detected locale; in English it returns every key unchanged; in no locale does it turn a non-empty key into an empty string |
| `PageText.RefusalNonEmpty` | src/app/page.tsx:87-89 | under the hook, in every locale, a refusal of the link guard is never an empty message |
| `PageText.PageKeysTranslated` | src/hooks/useTranslation.ts:5-129 | every key the issuer page passes to `t` is in both tables, so no page string falls back to English in a translated locale |
| `PageText.PageLookupsAsModelled` | src/hooks/useTranslation.ts:154-155 | no key the issuer page passes to `t` is an `Object.prototype` name, so on the page the source's lookup yields exactly the string `Lookup` does, whatever the table |
| `PageText.FailureMessagesDiffer` | src/app/page.tsx:79-119 | in every locale the generate path's failure message differs from the custom path's |
| `Expiry.RandomPathExpiry` | src/app/page.tsx:57-61 | `expire_at` is present iff more than one day is chosen, and it lies a whole number of days, exactly `daysAvailable`, after `now` |
| `Expiry.CustomPathExpiry` | src/app/page.tsx:94-98 | `expire_at` is present iff more than one day is chosen, and it lies `daysAvailable` days plus one hour after `now` |
| `Expiry.CustomIsOneHourLater` | src/app/page.tsx:94-98 | for the same `now` and day count, both paths agree on presence and the custom expiry is exactly 3,600,000 ms later |
| `Expiry.ExpiryMonotone` | src/app/page.tsx:57-61 | both expiries are strictly after `now` and do not decrease as the day count grows |
| `Carousel.Next` | src/app/page.tsx:33-38 | a tick keeps the index below six, moves it forward by one, and wraps from the last message to the first |
| `Carousel.AdvanceIsModular` | src/app/page.tsx:33-38 | `n` ticks from a valid index land on `(i + n) % 6` |
| `Carousel.FullCycle` | src/app/page.tsx:35 | six ticks bring every valid index back to itself |
| `Carousel.IndexFromStart` | src/app/page.tsx:19 | starting from 0, after `n` ticks the index is `n % 6` and is always in range |
| `Issuer.ValidatePassword` | src/app/page.tsx:41-46 | no message for an empty field or a length within [4, 128]; "at least 4" for a short non-empty field; "more than 128" for a long one |
| `Issuer.LinkGuard` | src/app/page.tsx:87-89 | the request may go out iff the password is not blank and its length is within [4, 128]; otherwise blank is reported first, then short, then long |
| `Issuer.GuardAgreesWithValidation` | src/app/page.tsx:87-89 | for a non-blank password, and a `t` that keeps both length messages non-empty, the guard refuses exactly when keystroke validation shows a message, and with that same message |
| `Issuer.HandleGenerateLink` | src/app/page.tsx:86-98 | a request is built iff the guard passes; then the error is cleared and the payload sent; otherwise only the error changes, to the guard's message |
| `Issuer.GenerateRequest` | src/app/page.tsx:50-61 | the generate payload copies size, numbers, symbols and views unchanged; `expire_at` is present iff days > 1, at `now` + days × 24 h |
| `Issuer.CustomRequest` | src/app/page.tsx:93-98 | the custom payload carries the password verbatim and the view count; `expire_at` is present iff days > 1, at `now` + days × 24 h + 1 h |
| `Issuer.DefaultGenerateRequest` | src/app/page.tsx:50-61 | with the default options the generate payload is size 16, numbers and symbols on, one view, no `expire_at` |
| `Issuer.ShareLink` | src/app/page.tsx:75 | the link is the origin, then "/view/", then the token, and nothing after it |
| `Issuer.ShareLinkInjective` | src/app/page.tsx:112 | for one origin, distinct tokens give distinct links |
| `Issuer.ShareLinkEndsWithToken` | src/app/page.tsx:75 | the link's last character is the token's last character: no slash is appended |
| `Issuer.Settle` | src/app/page.tsx:68-119 | a success sets `linkGenerated` and the link and keeps the error; a failure sets only the translated error; the form's inputs are untouched either way |
| `Issuer.FailureOnlySetsError` | src/app/page.tsx:116-119 | a failed reply on either path changes nothing but the error, which becomes that path's message |
| `Issuer.ClampSize` | src/app/page.tsx:249-252 | the size is always within [4, 128]; an in-range value is kept; NaN, 0 or anything below 4 becomes 4; anything above 128 becomes 128 |
| `Issuer.SliderValue` | src/app/page.tsx:292-297 | a slider value lies within the element's bounds and an in-range position is kept |
| `Issuer.Reset` | src/app/page.tsx:122-128 | the link flag, link, password, copy flag and error are cleared; size, checkboxes, sliders, options panel and carousel index are kept |
| `Issuer.ResetIdempotent` | src/app/page.tsx:122-128 | resetting twice is the same as resetting once |
| `Issuer.ResetRestoresInitialIff` | src/app/page.tsx:122-128 | a reset yields the freshly mounted form iff the options and carousel were already at their initial values |
| `Issuer.Step` | src/app/page.tsx:335-343 | an event sends a request iff it is a generate click, or a link click with the button enabled and the guard passing; a generate click changes no state; a link click with the password shorter than 4 changes nothing; an enabled link click leaves the form `HandleGenerateLink` gives and sends its payload, if any |
| `Issuer.ShortPasswordRefused` | src/app/page.tsx:88 | the guard refuses "ab" with the "at least 4" message, and through the page the disabled button sends nothing |
| `Issuer.LinkClickNeverReportsTooShort` | src/app/page.tsx:335-337 | clicking "Generate link" never produces the "at least 4" refusal, because the button is disabled below 4 |
| `Issuer.InitialValid` | src/app/page.tsx:10-21 | the freshly mounted form satisfies the page invariant |
| `Issuer.StepPreservesValid` | src/app/page.tsx:10-21 | every event keeps the invariant (size in [4,128], days in [1,7], views in [1,5], carousel index below 6, link flag iff link non-empty), and any request it sends is well formed |
| `Issuer.RunPreservesValid` | src/app/page.tsx:10-21 | from a valid form every event sequence stays valid and sends only well-formed requests, with a non-blank password of length in [4, 128] on the custom path |

## Findings

| source | as written | input that shows it | evidently intended | confidence | as-written member | corrected member |
|---|---|---|---|---|---|---|
| src/hooks/useTranslation.ts:154-155 | the hook indexes the table's object literal with the key before falling back to the key, so a key naming an `Object.prototype` member the table lacks finds the inherited member, which is truthy and escapes the fallback | `t("toString")` in pt-BR or es yields `Object.prototype.toString`, a function, instead of the string "toString"; likewise the other eleven names in `Translation.ObjectPrototypeNames` | `t` returns a string: the table's own value, or the key | medium; not executed | `Translation.SourceLookup`, `Translation.SourceLookupEscapesFallback` | `Translation.Lookup`, with `PageText.PageLookupsAsModelled` showing the two agree on every key the page uses |

## Left out

- Network I/O is not modelled: `fetch`, `response.json()`/`text()` and `console.error`. A reply is the `Outcome` input. A reply whose JSON lacks `token_url` is not modelled separately: JavaScript would render the text "undefined" into the link.
- Browser side effects and timers are not modelled: `navigator.clipboard.writeText`, `setTimeout` and `setInterval`. Timer firings are the `Tick` and `CopyExpired` events, so scheduling and cancellation are not modelled.
- `new Date()` and `toISOString()` are not modelled. `now` is an integer millisecond input, and `expire_at` is kept as milliseconds rather than as its ISO-8601 text.
- JavaScript numbers are IEEE doubles. The model uses unbounded integers, which agree with doubles for every integer below 2^53 ms. Realistic clock readings plus at most seven days are well below that.
- `parseInt` is not modelled: its result is an `Option<int>` input.
- The range inputs' own value sanitization is modelled as a clamp into `[min, max]` (`Issuer.SliderValue`). The source passes `parseInt` of that value through unchanged.
- JSX rendering is not modelled: markup, CSS classes, the character counter, the pluralised "day/days" and "view/views" choice, and the slider gradient percentages. The gradients use floating-point division.
- React hook semantics are not modelled: `useState`/`useEffect` scheduling and batching. Each handler's state updates are applied together as one transition.
- The page receives `t` as a field of `Issuer.Env`, so the page's own proofs hold for any translation function. `PageText` instantiates it with the hook's `t` for a locale. Detection (`Translation.Detect`) runs once after mount, and the hook's one-time effect is not modelled.
- JavaScript strings are sequences of UTF-16 code units and may hold a lone surrogate, for instance in an `<input>` value. A Dafny `char` is a Unicode scalar value, so such a string has no model here: `JsString` covers only well-formed UTF-16 text.
- next.config.js is build and routing configuration with no logic.
- The link-redemption page (`src/app/view/[id]/page.tsx`) is not part of this model. This covers its one-shot fetch latch, reveal toggle, copy flag and "Revoke". It is a separate component, and this model covers only the issuer page and the locale engine it uses.
- `Translation.Lookup`: states the string fallback the hook intends. For the twelve `Object.prototype` names that a table does not list, the source instead yields the inherited member (see Findings and `Translation.SourceLookup`). The page passes none of these names (`PageText.PageLookupsAsModelled`).
- `Translation.LookupExact`: states the intended fallback; for an `Object.prototype` name the source yields the inherited member instead.
- `Translation.PtBRLookup`: states the intended fallback; for an `Object.prototype` name the source yields the inherited member instead.
- `Translation.EsLookup`: states the intended fallback; for an `Object.prototype` name the source yields the inherited member instead.
- `Translation.Translate`: its own contract says only that a non-empty key never becomes empty. Like `Translation.Lookup`, it states the intended string fallback; for an `Object.prototype` name the source yields the inherited member instead. The exact result per locale is stated by `Translation.InitialIsIdentity` (en) and by `Translation.PtBRLookup` and `Translation.EsLookup`. Those two need the fact that no table value is empty.
- `Issuer.Step`: accepts every event in every state. On the page, the form's controls are rendered only while no link has been generated (src/app/page.tsx:186-360, against the link view at 137-184), and the size box and checkboxes only while the options panel is open (:242). The model is therefore more permissive than the page. Its invariant (`Issuer.StepPreservesValid`) holds for every event in every state, so it also holds for the events the page can actually deliver.
- `Issuer.ValidatePassword` and `Issuer.LinkGuard`: the messages are whatever `t` returns, so a message is non-empty only under a `t` that keeps it non-empty. The hook's `t` does (`PageText.RefusalNonEmpty`).
