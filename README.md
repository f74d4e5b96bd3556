# Business dashboard: a verified model

The business dashboard has two parts. A React page takes a business name and a location. It asks an Express backend for a fabricated Google-style rating, a review count and an SEO headline. It can also ask for a fresh headline on its own. This project models both halves and proves what they promise.

- `wrappers.dfy` (`Wrappers`): `Option`, used for JSON fields that may be absent.
- `js_string.dfy` (`JsString`): the two JavaScript string operations the core relies on.
  - `String.prototype.replace` with a string pattern. It replaces only the first occurrence and expands the `$$`, `$&`, `` $` `` and `$'` patterns in the replacement, as the ECMAScript GetSubstitution operation does.
  - `String.prototype.trim`, over the ECMAScript WhiteSpace and LineTerminator characters.
- `server.dfy` (`Server`): the backend (Backend/server.js).
  - The table of ten headline templates.
  - The rating, review-count and headline generators.
  - The two data routes, as pure functions from a request and a stream of `Math.random()` draws to a response and the draws left over.
  - The root route, a constant response that takes neither a request nor draws.
- `frontend.dfy` (`Frontend`): the page component (Frontend/src/App.js).
  - A class `App` with the component's five state fields.
  - One method per handler. Each `setState` is an assignment to those fields.
  - Each `fetch` is a `Reply` passed in: the parsed JSON of a successful response, or `Failed`.
  - A proof that every form the page accepts also passes the backend's check.

Ratings are integer tenths: `RatingTenths` returns 42 for "4.2". Each `Math.random()` result is a real number in [0, 1).

The code makes the review count `Math.floor(Math.random() * 500) + 50`, which lies in [50, 549]. The comment beside it says "between 50 and 550". The model follows the code: `ReviewCount` ensures 50..549, and `ReviewCountOnto` shows that every value in that range can be drawn.

`SeoHeadlines` spells each template as its text joined with the two placeholder constants. For example, entry 0 is `"Why " + BusinessToken + " is " + LocationToken + "'s Top Choice in 2025"`. This is the same text as the source's table, character for character.

## Model

| member | source | states |
|---|---|---|
| JsString.IndexOf | Backend/server.js:34 | The index found is the first occurrence of the pattern. `None` means there is no occurrence anywhere. |
| JsString.IndexOfFindsOccurrence | Backend/server.js:34 | `indexOf` finds nothing exactly when the pattern does not occur. |
| JsString.IndexOfAfterClear | Backend/server.js:34 | `indexOf` finds the pattern right after a stretch that holds none and cannot run into it. |
| JsString.Substitution | Backend/server.js:34 | Definition of ECMAScript GetSubstitution for a string pattern: `$$`, `$&`, `` $` `` and `$'` are expanded and every other character is copied. Its behaviour is stated by JsString.SubstitutionVerbatim and JsString.ReplaceWithMatchIsIdentity. |
| JsString.ReplaceFirst | Backend/server.js:34 | A string without the pattern is returned unchanged. |
| JsString.ReplaceFirstLength | Backend/server.js:34 | With the pattern present and a replacement with no `$` pattern, the length changes by exactly one pattern's worth. |
| JsString.ReplaceFirstAfter | Backend/server.js:34 | When no occurrence starts inside `x`, the one right after it is replaced: `x + pat + y` becomes `x + <expanded rep> + y`, and the unexpanded `rep` when it has no `$` pattern. |
| JsString.ReplaceFirstKeepsTail | Backend/server.js:34 | When the pattern occurs in `x`, replacing in `x + y` leaves `y` untouched at the end. |
| JsString.ReplaceWithMatchIsIdentity | Backend/server.js:34 | A replacement of `$&` puts the match back, so the string is unchanged. |
| JsString.SubstitutionVerbatim | Backend/server.js:34 | A replacement with no `$` pattern is inserted verbatim. A `$` not followed by `$`, `&`, `` ` `` or `'`, as in "$5 Pizza", stands for itself. |
| JsString.TrimStart | Frontend/src/App.js:30 | Only leading whitespace is removed, and the result starts with a non-whitespace character or is empty. |
| JsString.TrimEnd | Frontend/src/App.js:30 | Only trailing whitespace is removed, and the result ends with a non-whitespace character or is empty. |
| JsString.Trim | Frontend/src/App.js:30-34 | Definition of `trim()`: the leading whitespace, then the trailing whitespace, is dropped. Its behaviour is stated by JsString.TrimStripsBothEnds and JsString.TrimEmpty. |
| JsString.TrimStripsBothEnds | Frontend/src/App.js:30-34 | `trim()` keeps a stretch of the input with only whitespace before and after it, and that stretch starts and ends with a character that is not whitespace. |
| JsString.TrimEmpty | Frontend/src/App.js:30-35 | `trim()` is empty exactly when every character is whitespace. |
| Server.Fill | Backend/server.js:34 | Definition of the replace chain: one single-shot `replace` of `{business}`, then one of `{location}`. Its result on each template is stated by Server.FillShape. |
| Server.RandomHeadline | Backend/server.js:32-35 | The headline is one of the ten templates, filled with the name and the location. |
| Server.FillShape | Backend/server.js:32-35 | For text of the templates' shape and inputs with no `$` pattern, the chain rewrites exactly the two placeholders. This holds whichever comes first, provided a business-first template does not get a name containing `{location}`. |
| Server.TemplateIndex | Backend/server.js:33 | `Math.floor(Math.random() * seoHeadlines.length)` is always a valid index into the table. |
| Server.TemplateIndexOnto | Backend/server.js:33 | Every one of the ten templates can be chosen. |
| Server.TemplateShape | Backend/server.js:11-22 | Each template is text, one placeholder, text, the other placeholder, text. The surrounding text has no `{`. Only templates 1, 4 and 8 put `{location}` first. |
| Server.TemplatePlaceholdersOnce | Backend/server.js:11-22 | Each template holds `{business}` exactly once and `{location}` exactly once. |
| Server.BusinessFirstTemplates | Backend/server.js:11-22 | `{business}` comes before `{location}` in every template except 1, 4 and 8. |
| Server.ReviewCount | Backend/server.js:27 | The review count lies in [50, 549]. |
| Server.ReviewCountOnto | Backend/server.js:27 | Every count from 50 to 549 can be drawn, so 549 is the largest. |
| Server.RatingTenths | Backend/server.js:26 | `toFixed(1)` of a value in [3, 5) gives a rating from 3.0 to 5.0 in tenths. |
| Server.RatingOnto | Backend/server.js:26 | Every tenth from 3.0 to 5.0 can be drawn, 5.0 included, which only rounding up produces. |
| Server.GenerateBusinessData | Backend/server.js:25-29 | The rating lies within 3.0–5.0 and the review count within 50–549. |
| Server.FilledHeadline | Backend/server.js:32-35 | Take any template, and inputs with no placeholder and no `$` pattern. The headline then has no placeholder left and holds both inputs verbatim. |
| Server.SlotOrder | Backend/server.js:34 | In text with `p` in the first slot and `q` in the second, `indexOf` finds each exactly in its own slot, so `p` at the smaller index. |
| Server.ShapeOrder | Backend/server.js:11-22 | For text of the templates' shape, `{business}` is found before `{location}` exactly when it fills the first slot. |
| Server.ReplaceShadowed | Backend/server.js:34 | Take two single-shot replaces, `p` then `q`, where the first inserts text that contains `q`. The second then rewrites that copy: the text after the first slot ends the result unchanged, the template's own `q` with it. |
| Server.NameShadowsLocation | Backend/server.js:34 | The replace chain runs in order. In a business-first template, a business name containing `{location}` is rewritten by the second `replace` in place of the template's own `{location}`. The headline ends with the template's text after `{business}`, exactly as written, so its `{location}` reaches the headline. |
| Server.DollarPatternKeepsPlaceholder | Backend/server.js:34 | A business name of `$&` is read as a replacement pattern, so `{business}` remains in the headline. |
| Server.Falsy | Backend/server.js:41 | Definition of JavaScript falsiness for a string field: absent or `''`. |
| Server.Rejects | Backend/server.js:41 | Definition of `!name \|\| !location`. Server.PostBusinessData and Server.GetRegenerateHeadline state that status 400 comes exactly from it. |
| Server.PostBusinessData | Backend/server.js:38-57 | A missing or empty name or location gives 400 with the fixed message, and nothing is drawn. Otherwise the result is 200 with a rating in 3.0–5.0, a review count in 50–549, and a headline filled from one of the ten templates. Exactly three draws are used. |
| Server.GetRegenerateHeadline | Backend/server.js:59-72 | The same check and the same 400. Otherwise the result is 200 with only a headline filled from one of the templates, using one draw. |
| Server.GetRoot | Backend/server.js:74-76 | The root route answers 200 with a message body. |
| Server.AcceptedHeadlines | Backend/server.js:38-72 | On both routes, an accepted request with clean inputs yields a headline that holds both inputs and no placeholder. |
| Frontend.FormData.With | Frontend/src/App.js:45-49 | Setting one field gives it the new value and leaves the other field as it was. |
| Frontend.Blank | Frontend/src/App.js:30 | Definition of `!value.trim()`. Frontend.AcceptsIff states what it means. |
| Frontend.Accepts | Frontend/src/App.js:30-39 | Definition of what `validateForm` lets through: neither field blank. Frontend.AcceptsIff and Frontend.App.ValidateForm state it. |
| Frontend.ErrorsFor | Frontend/src/App.js:28-36 | Definition of `newErrors`: a key exactly for each blank field, with that field's fixed message. Frontend.App.ValidateForm states that the errors meet it. |
| Frontend.AcceptsIff | Frontend/src/App.js:26-40 | The form is accepted exactly when each field holds a character that is not whitespace. |
| Frontend.AcceptedFormPassesBackend | Frontend/src/App.js:59-77 | Any form the page accepts passes the backend's falsy check, so both routes answer 200. |
| Frontend.BlankNamePassesOnlyBackend | Frontend/src/App.js:30 | The page is stricter than the backend. A name of spaces passes the backend's check, but the form rejects it. |
| Frontend.App.constructor | Frontend/src/App.js:7-16 | The initial state: empty inputs, no errors, no data, not loading, on the form page. |
| Frontend.App.ValidateForm | Frontend/src/App.js:26-40 | The errors hold a key exactly for each blank field, with that field's message. The result is true exactly when there are no errors, which is exactly when the form is accepted. |
| Frontend.App.HandleInputChange | Frontend/src/App.js:42-55 | The named field takes the new value and its error becomes `''`. The other field and its error are kept. |
| Frontend.App.HandleSubmit | Frontend/src/App.js:57-100 | A rejected form changes only the errors and sends nothing. An accepted form sends its inputs. A successful reply becomes the data and opens the results page. A failed reply leaves data and page as they were. Loading ends false, and results are never shown without data. |
| Frontend.App.HandleRegenerateHeadline | Frontend/src/App.js:102-137 | Sends the current inputs without validating them. A successful reply replaces only the headline and keeps the rating and review count. With no data yet, the result is a record holding only the headline. A failure changes nothing. Loading ends false. |
| Frontend.App.GoBackToForm | Frontend/src/App.js:139-141 | Returns to the form page and keeps the inputs and data. |
| Frontend.App.Render | Frontend/src/App.js:143-146 | The results page is shown only when the page is 'results' and there is data. Under the class invariant, that is exactly when the page is 'results'. |

## Left out

- Floating point is not modelled. Draws are exact reals, and `toFixed(1)` rounds the exact value of `Math.random() * 2 + 3`. The double rounding of binary floating point is not captured.
- `Math.random()` itself is not modelled. Its results are a finite stream handed to each route. The routes require as many draws as they use (three for POST, one for GET).
- JSON fields are strings or absent. A number, array or object in the request body or query, whose falsiness and string conversion differ, is not modelled.
- The `try`/`catch` paths that answer 500 "Server error" are not modelled. With string inputs nothing inside the `try` can throw.
- Express and CORS setup, `app.listen`, the port and `console.log` are not modelled.
- On the page, `console`, `alert`, `e.preventDefault()` and the JSX markup are not modelled. Only the render guard that picks the page is.
- Each handler runs start to finish in one step. The state while a request is in flight is not modelled: `loading` is true then, and a second handler could interleave.
- `encodeURIComponent` on the page and the backend's query decoding are taken to be inverses, so both requests carry the same strings.
- The JSON a successful reply carries is taken to have the backend's shape (`Insight`, or a headline string). Missing fields become `None` only where the page's merge creates them.
- Server.FilledHeadline: it is stated only for inputs with no placeholder and no `$` pattern (a `$` followed by `$`, `&`, `` ` `` or `'`). For other inputs the headline can keep a placeholder, as Server.NameShadowsLocation and Server.DollarPatternKeepsPlaceholder show.
- JavaScript strings are sequences of UTF-16 code units; here they are sequences of Unicode scalar values. An index or length in the model counts characters where JavaScript counts code units, and a lone surrogate cannot be expressed. For well-formed strings only positions and lengths differ: which string contains which, and what `replace` and `trim` return, are the same.
