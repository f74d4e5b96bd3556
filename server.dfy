/**
 The dashboard backend (Backend/server.js): ten SEO headline templates, the
 generator that fills one in and fabricates a rating and a review count, and
 the validate-then-respond logic of its HTTP routes.

 Every `Math.random()` call is one draw, a real number in [0, 1), taken in
 order from a finite stream `rng`; a handler returns the draws it did not use.
 */
module Server {
  import opened Wrappers
  import opened JsString

  const BusinessToken := "{business}"
  const LocationToken := "{location}"

  /** The fixed template table `seoHeadlines`, each entry spelled out as its
      text around the two placeholders. */
  const SeoHeadlines: seq<string> := [
    "Why " + BusinessToken + " is " + LocationToken + "'s Top Choice in 2025",
    "Discover " + LocationToken + "'s Best " + BusinessToken + " - Expert Guide 2025",
    BusinessToken + ": " + LocationToken + "'s Premier Destination This Year",
    "The Ultimate " + BusinessToken + " Experience in " + LocationToken + " - 2025",
    LocationToken + "'s Hidden Gem: " + BusinessToken + " Revealed",
    "Why Locals Choose " + BusinessToken + " in " + LocationToken,
    BusinessToken + " - " + LocationToken + "'s Most Trusted Name",
    "Experience Excellence at " + BusinessToken + " in " + LocationToken,
    LocationToken + "'s #1 " + BusinessToken + " - What Makes It Special",
    "Your Complete Guide to " + BusinessToken + " in " + LocationToken
  ]

  /** A value `Math.random()` can return. */
  predicate IsDraw(r: real)
  {
    0.0 <= r < 1.0
  }

  /** A stream of `Math.random()` results. */
  predicate IsDrawStream(rng: seq<real>)
  {
    forall k :: 0 <= k < |rng| ==> IsDraw(rng[k])
  }

  /** `Math.floor(Math.random() * seoHeadlines.length)`: always a valid index. */
  function TemplateIndex(draw: real): (i: nat)
    requires IsDraw(draw)
    ensures i < |SeoHeadlines|
  {
    (draw * |SeoHeadlines| as real).Floor
  }

  /** Substitutes the two placeholders, `{business}` first, each with a
      single-shot `replace`. */
  function Fill(template: string, name: string, location: string): string
  {
    ReplaceFirst(ReplaceFirst(template, BusinessToken, name), LocationToken, location)
  }

  /** `getRandomHeadline(businessName, location)`: one of the ten templates,
      filled. */
  function RandomHeadline(draw: real, name: string, location: string): (h: string)
    requires IsDraw(draw)
    ensures exists i :: 0 <= i < |SeoHeadlines| && h == Fill(SeoHeadlines[i], name, location)
  {
    Fill(SeoHeadlines[TemplateIndex(draw)], name, location)
  }

  /** `Math.floor(Math.random() * 500) + 50`: an integer in [50, 549]. */
  function ReviewCount(draw: real): (n: int)
    requires IsDraw(draw)
    ensures 50 <= n <= 549
  {
    (draw * 500.0).Floor + 50
  }

  /** `parseFloat((Math.random() * 2 + 3).toFixed(1))` in tenths: `toFixed(1)`
      picks the nearest tenth, the larger one on a tie. */
  function RatingTenths(draw: real): (t: int)
    requires IsDraw(draw)
    ensures 30 <= t <= 50
  {
    ((draw * 2.0 + 3.0) * 10.0 + 0.5).Floor
  }

  // ---------------------------------------------------------------------
  // The draws
  // ---------------------------------------------------------------------

  /** Every template can be chosen. */
  lemma TemplateIndexOnto(i: nat)
    requires i < |SeoHeadlines|
    ensures IsDraw(i as real / 10.0) && TemplateIndex(i as real / 10.0) == i
  {
    assert i as real / 10.0 * 10.0 == i as real;
  }

  /** The review counts reachable are exactly [50, 549]: 550 never appears. */
  lemma ReviewCountOnto(n: int)
    requires 50 <= n <= 549
    ensures IsDraw((n - 50) as real / 500.0) && ReviewCount((n - 50) as real / 500.0) == n
  {
    assert (n - 50) as real / 500.0 * 500.0 == (n - 50) as real;
  }

  /** Every rating from 3.0 to 5.0 in steps of 0.1 can be reported, 5.0 included. */
  lemma RatingOnto(t: int)
    requires 30 <= t <= 50
    ensures var d := if t == 30 then 0.0 else ((t - 30) as real - 0.25) / 20.0;
            IsDraw(d) && RatingTenths(d) == t
  {
    var d := if t == 30 then 0.0 else ((t - 30) as real - 0.25) / 20.0;
    assert (d * 2.0 + 3.0) * 10.0 + 0.5 == if t == 30 then 30.5 else t as real + 0.25;
  }

  // ---------------------------------------------------------------------
  // The templates
  // ---------------------------------------------------------------------

  /** The characters that sit right next to a placeholder in the templates. */
  predicate Seam(c: char)
  {
    c == ' ' || c == ':' || c == '\''
  }

  /** No seam character is part of a placeholder. */
  lemma SeamInert(c: char)
    requires Seam(c)
    ensures c !in BusinessToken && c !in LocationToken
  {
  }

  /** Template text around and between the placeholders: it holds no `{`, and
      the characters that touch a placeholder are seam characters, so no
      placeholder can be formed across a seam once the placeholders are
      substituted. */
  predicate Plain(pre: string, mid: string, post: string)
  {
    && '{' !in pre && '{' !in mid && '{' !in post
    && (pre == [] || Seam(pre[|pre| - 1]))
    && mid != [] && Seam(mid[0]) && Seam(mid[|mid| - 1])
    && (post == [] || Seam(post[0]))
  }

  /** The two placeholders in template order. */
  function First(businessFirst: bool): string
  {
    if businessFirst then BusinessToken else LocationToken
  }

  function Second(businessFirst: bool): string
  {
    if businessFirst then LocationToken else BusinessToken
  }

  /** Each template is plain text with the two placeholders in it. */
  lemma TemplateShape(i: nat) returns (businessFirst: bool, pre: string, mid: string, post: string)
    requires i < |SeoHeadlines|
    ensures SeoHeadlines[i] == pre + First(businessFirst) + mid + Second(businessFirst) + post
    ensures Plain(pre, mid, post)
    ensures businessFirst <==> i != 1 && i != 4 && i != 8
  {
    match i
    case 0 => businessFirst, pre, mid, post := ShapeOfTemplate0();
    case 1 => businessFirst, pre, mid, post := ShapeOfTemplate1();
    case 2 => businessFirst, pre, mid, post := ShapeOfTemplate2();
    case 3 => businessFirst, pre, mid, post := ShapeOfTemplate3();
    case 4 => businessFirst, pre, mid, post := ShapeOfTemplate4();
    case 5 => businessFirst, pre, mid, post := ShapeOfTemplate5();
    case 6 => businessFirst, pre, mid, post := ShapeOfTemplate6();
    case 7 => businessFirst, pre, mid, post := ShapeOfTemplate7();
    case 8 => businessFirst, pre, mid, post := ShapeOfTemplate8();
    case 9 => businessFirst, pre, mid, post := ShapeOfTemplate9();
  }

  lemma ShapeOfTemplate0() returns (businessFirst: bool, pre: string, mid: string, post: string)
    ensures SeoHeadlines[0] == pre + First(businessFirst) + mid + Second(businessFirst) + post
    ensures Plain(pre, mid, post) && businessFirst
  {
    businessFirst, pre, mid, post := true, "Why ", " is ", "'s Top Choice in 2025";
  }

  lemma ShapeOfTemplate1() returns (businessFirst: bool, pre: string, mid: string, post: string)
    ensures SeoHeadlines[1] == pre + First(businessFirst) + mid + Second(businessFirst) + post
    ensures Plain(pre, mid, post) && !businessFirst
  {
    businessFirst, pre, mid, post := false, "Discover ", "'s Best ", " - Expert Guide 2025";
  }

  lemma ShapeOfTemplate2() returns (businessFirst: bool, pre: string, mid: string, post: string)
    ensures SeoHeadlines[2] == pre + First(businessFirst) + mid + Second(businessFirst) + post
    ensures Plain(pre, mid, post) && businessFirst
  {
    businessFirst, pre, mid, post := true, "", ": ", "'s Premier Destination This Year";
  }

  lemma ShapeOfTemplate3() returns (businessFirst: bool, pre: string, mid: string, post: string)
    ensures SeoHeadlines[3] == pre + First(businessFirst) + mid + Second(businessFirst) + post
    ensures Plain(pre, mid, post) && businessFirst
  {
    businessFirst, pre, mid, post := true, "The Ultimate ", " Experience in ", " - 2025";
  }

  lemma ShapeOfTemplate4() returns (businessFirst: bool, pre: string, mid: string, post: string)
    ensures SeoHeadlines[4] == pre + First(businessFirst) + mid + Second(businessFirst) + post
    ensures Plain(pre, mid, post) && !businessFirst
  {
    businessFirst, pre, mid, post := false, "", "'s Hidden Gem: ", " Revealed";
  }

  lemma ShapeOfTemplate5() returns (businessFirst: bool, pre: string, mid: string, post: string)
    ensures SeoHeadlines[5] == pre + First(businessFirst) + mid + Second(businessFirst) + post
    ensures Plain(pre, mid, post) && businessFirst
  {
    businessFirst, pre, mid, post := true, "Why Locals Choose ", " in ", "";
  }

  lemma ShapeOfTemplate6() returns (businessFirst: bool, pre: string, mid: string, post: string)
    ensures SeoHeadlines[6] == pre + First(businessFirst) + mid + Second(businessFirst) + post
    ensures Plain(pre, mid, post) && businessFirst
  {
    businessFirst, pre, mid, post := true, "", " - ", "'s Most Trusted Name";
  }

  lemma ShapeOfTemplate7() returns (businessFirst: bool, pre: string, mid: string, post: string)
    ensures SeoHeadlines[7] == pre + First(businessFirst) + mid + Second(businessFirst) + post
    ensures Plain(pre, mid, post) && businessFirst
  {
    businessFirst, pre, mid, post := true, "Experience Excellence at ", " in ", "";
  }

  lemma ShapeOfTemplate8() returns (businessFirst: bool, pre: string, mid: string, post: string)
    ensures SeoHeadlines[8] == pre + First(businessFirst) + mid + Second(businessFirst) + post
    ensures Plain(pre, mid, post) && !businessFirst
  {
    businessFirst, pre, mid, post := false, "", "'s #1 ", " - What Makes It Special";
  }

  lemma ShapeOfTemplate9() returns (businessFirst: bool, pre: string, mid: string, post: string)
    ensures SeoHeadlines[9] == pre + First(businessFirst) + mid + Second(businessFirst) + post
    ensures Plain(pre, mid, post) && businessFirst
  {
    businessFirst, pre, mid, post := true, "Your Complete Guide to ", " in ", "";
  }

  // ---------------------------------------------------------------------
  // Filling a template
  // ---------------------------------------------------------------------

  /** Text `pre`, `mid`, `post` around two slots keeps clear of `pat`: none of
      them holds it and no occurrence can run across a slot's edge. */
  predicate Apart(pre: string, mid: string, post: string, pat: string)
  {
    && |pat| > 0 && mid != []
    && !Contains(pre, pat) && !Contains(mid, pat) && !Contains(post, pat)
    && (pre == [] || pre[|pre| - 1] !in pat)
    && mid[0] !in pat && mid[|mid| - 1] !in pat
    && (post == [] || post[0] !in pat)
  }

  /** Plain template text keeps clear of both placeholders. */
  lemma PlainApart(pre: string, mid: string, post: string)
    requires Plain(pre, mid, post)
    ensures Apart(pre, mid, post, BusinessToken) && Apart(pre, mid, post, LocationToken)
  {
    AbsentFirstChar(pre, BusinessToken);
    AbsentFirstChar(pre, LocationToken);
    AbsentFirstChar(mid, BusinessToken);
    AbsentFirstChar(mid, LocationToken);
    AbsentFirstChar(post, BusinessToken);
    AbsentFirstChar(post, LocationToken);
    if pre != [] { SeamInert(pre[|pre| - 1]); }
    SeamInert(mid[0]);
    SeamInert(mid[|mid| - 1]);
    if post != [] { SeamInert(post[0]); }
  }

  /** Neither placeholder contains the other. */
  lemma TokensDistinct()
    ensures !Contains(BusinessToken, LocationToken) && !Contains(LocationToken, BusinessToken)
  {
    assert BusinessToken[1] != LocationToken[1];
    assert !StartsWith(BusinessToken, LocationToken) && !StartsWith(LocationToken, BusinessToken);
  }

  /** With strings `a` and `b` in the two slots, `pat` occurs only where it
      occurs inside `a` or `b`. */
  lemma {:induction false} OccurrencesAround(pre: string, a: string, mid: string, b: string, post: string, pat: string)
    requires Apart(pre, mid, post, pat)
    ensures Occurrences(pre + a + mid + b + post, pat) == Occurrences(a, pat) + Occurrences(b, pat)
  {
    OccurrencesConcat(pre, a, pat);
    OccurrencesConcat(pre + a, mid, pat);
    var x := pre + a + mid;
    assert x[|x| - 1] == mid[|mid| - 1];
    OccurrencesConcat(x, b, pat);
    OccurrencesConcat(x + b, post, pat);
  }

  /** The stretch before the second slot holds no `pat` when `a` does not. */
  lemma ClearBeforeSecond(pre: string, a: string, mid: string, pat: string)
    requires |pat| > 0 && mid != [] && !Contains(pre, pat) && !Contains(a, pat) && !Contains(mid, pat)
    requires pre == [] || pre[|pre| - 1] !in pat
    requires mid[0] !in pat && mid[|mid| - 1] !in pat
    ensures !Contains(pre + a + mid, pat)
    ensures var x := pre + a + mid; x[|x| - 1] !in pat
  {
    OccurrencesConcat(pre, a, pat);
    OccurrencesConcat(pre + a, mid, pat);
    var x := pre + a + mid;
    assert x[|x| - 1] == mid[|mid| - 1];
  }

  /** `replace` of `p` rewrites the first slot when the text before it is clear of `p`. */
  lemma FillFirstSlot(pre: string, p: string, mid: string, q: string, post: string, a: string)
    requires |p| > 0 && !Contains(pre, p) && (pre == [] || pre[|pre| - 1] !in p)
    requires Literal(a)
    ensures ReplaceFirst(pre + p + mid + q + post, p, a) == pre + a + mid + q + post
  {
    Regroup(pre, p, mid, q, post);
    Regroup(pre, a, mid, q, post);
    IndexOfFindsOccurrence(pre, p);
    NoneBeforeSeam(pre, p + mid + q + post, p);
    ReplaceFirstAfter(pre, p, mid + q + post, a);
  }

  /** `replace` of `q` rewrites the second slot when everything before it is clear of `q`. */
  lemma FillSecondSlot(pre: string, a: string, mid: string, q: string, post: string, b: string)
    requires |q| > 0 && mid != [] && !Contains(pre, q) && !Contains(a, q) && !Contains(mid, q)
    requires pre == [] || pre[|pre| - 1] !in q
    requires mid[0] !in q && mid[|mid| - 1] !in q
    requires Literal(b)
    ensures ReplaceFirst(pre + a + mid + q + post, q, b) == pre + a + mid + b + post
  {
    ClearBeforeSecond(pre, a, mid, q);
    var x := pre + a + mid;
    IndexOfFindsOccurrence(x, q);
    NoneBeforeSeam(x, q + post, q);
    assert x + q + post == x + (q + post);
    ReplaceFirstAfter(x, q, post, b);
  }

  /** Two single-shot replaces, `p` then `q`, on text where `p` comes first:
      each rewrites its own slot, provided `a` brings no `q` along. */
  lemma ReplaceInOrder(pre: string, mid: string, post: string, p: string, q: string, a: string, b: string)
    requires Apart(pre, mid, post, p) && Apart(pre, mid, post, q)
    requires Literal(a) && Literal(b) && !Contains(a, q)
    ensures ReplaceFirst(ReplaceFirst(pre + p + mid + q + post, p, a), q, b) == pre + a + mid + b + post
  {
    FillFirstSlot(pre, p, mid, q, post, a);
    FillSecondSlot(pre, a, mid, q, post, b);
  }

  /** Two single-shot replaces, `p` then `q`, on text where `q` comes first. */
  lemma ReplaceOutOfOrder(pre: string, mid: string, post: string, p: string, q: string, a: string, b: string)
    requires Apart(pre, mid, post, p) && Apart(pre, mid, post, q)
    requires Literal(a) && Literal(b) && !Contains(q, p)
    ensures ReplaceFirst(ReplaceFirst(pre + q + mid + p + post, p, a), q, b) == pre + b + mid + a + post
  {
    FillSecondSlot(pre, q, mid, p, post, a);
    FillFirstSlot(pre, q, mid, a, post, b);
  }

  /** Filling a template rewrites exactly its two placeholders, provided the
      business name brings no `{location}` of its own into a template where
      `{business}` comes first. */
  lemma FillShape(businessFirst: bool, pre: string, mid: string, post: string, name: string, location: string)
    requires Plain(pre, mid, post)
    requires Literal(name) && Literal(location)
    requires businessFirst ==> !Contains(name, LocationToken)
    ensures Fill(pre + First(businessFirst) + mid + Second(businessFirst) + post, name, location)
         == if businessFirst then pre + name + mid + location + post else pre + location + mid + name + post
  {
    PlainApart(pre, mid, post);
    TokensDistinct();
    if businessFirst {
      ReplaceInOrder(pre, mid, post, BusinessToken, LocationToken, name, location);
    } else {
      ReplaceOutOfOrder(pre, mid, post, BusinessToken, LocationToken, name, location);
    }
  }

  /** Every template holds exactly one `{business}` and exactly one `{location}`. */
  lemma TemplatePlaceholdersOnce(i: nat)
    requires i < |SeoHeadlines|
    ensures Occurrences(SeoHeadlines[i], BusinessToken) == 1
    ensures Occurrences(SeoHeadlines[i], LocationToken) == 1
  {
    var businessFirst, pre, mid, post := TemplateShape(i);
    PlainApart(pre, mid, post);
    TokensDistinct();
    OccurrencesAround(pre, First(businessFirst), mid, Second(businessFirst), post, BusinessToken);
    OccurrencesAround(pre, First(businessFirst), mid, Second(businessFirst), post, LocationToken);
    assert StartsWith(BusinessToken, BusinessToken) && StartsWith(LocationToken, LocationToken);
  }

  /** An input that carries no placeholder and no `$` replacement pattern
      (a lone `$`, as in "$5 Pizza", is allowed). */
  predicate Clean(s: string)
  {
    Literal(s) && !Contains(s, BusinessToken) && !Contains(s, LocationToken)
  }

  /** With inputs that carry no placeholder and no `$` pattern, the headline has
      no placeholder left and holds the business name and the location verbatim. */
  lemma FilledHeadline(i: nat, name: string, location: string)
    requires i < |SeoHeadlines|
    requires Clean(name) && Clean(location)
    ensures var h := Fill(SeoHeadlines[i], name, location);
      && !Contains(h, BusinessToken) && !Contains(h, LocationToken)
      && Contains(h, name) && Contains(h, location)
  {
    var businessFirst, pre, mid, post := TemplateShape(i);
    FillShape(businessFirst, pre, mid, post, name, location);
    PlainApart(pre, mid, post);
    var a, b := if businessFirst then name else location, if businessFirst then location else name;
    OccurrencesAround(pre, a, mid, b, post, BusinessToken);
    OccurrencesAround(pre, a, mid, b, post, LocationToken);
    Regroup(pre, a, mid, b, post);
    ContainsInfix(pre, a, mid + b + post);
    ContainsInfix(pre + a + mid, b, post);
  }

  /** `{business}` comes before `{location}` in template `t`. */
  predicate BusinessFirst(t: string)
  {
    IndexOf(t, BusinessToken).Some? && IndexOf(t, LocationToken).Some?
    && IndexOf(t, BusinessToken).value < IndexOf(t, LocationToken).value
  }

  /** In text with `p` in the first slot and `q` in the second, `indexOf` finds
      each in its own slot, so `p` before `q`. */
  lemma SlotOrder(pre: string, mid: string, post: string, p: string, q: string)
    requires Apart(pre, mid, post, p) && Apart(pre, mid, post, q) && !Contains(p, q)
    ensures var t := pre + p + mid + q + post;
      IndexOf(t, p) == Some(|pre|) && IndexOf(t, q) == Some(|pre| + |p| + |mid|)
  {
    Regroup(pre, p, mid, q, post);
    IndexOfAfterClear(pre, p, mid + q + post);
    ClearBeforeSecond(pre, p, mid, q);
    IndexOfAfterClear(pre + p + mid, q, post);
  }

  /** Which placeholder comes first is what `TemplateShape` says. */
  lemma ShapeOrder(businessFirst: bool, pre: string, mid: string, post: string)
    requires Plain(pre, mid, post)
    ensures BusinessFirst(pre + First(businessFirst) + mid + Second(businessFirst) + post) == businessFirst
  {
    PlainApart(pre, mid, post);
    TokensDistinct();
    if businessFirst {
      SlotOrder(pre, mid, post, BusinessToken, LocationToken);
    } else {
      SlotOrder(pre, mid, post, LocationToken, BusinessToken);
    }
  }

  /** Two single-shot replaces, `p` then `q`, on text where `p` comes first and
      `a` brings a `q` of its own: the second replace rewrites the copy in `a`,
      so the text after the first slot — the text's own `q` with it — ends the
      result untouched. */
  lemma ReplaceShadowed(pre: string, mid: string, post: string, p: string, q: string, a: string, b: string)
    requires Apart(pre, mid, post, p) && Apart(pre, mid, post, q)
    requires Literal(a) && Contains(a, q)
    ensures var r := ReplaceFirst(ReplaceFirst(pre + p + mid + q + post, p, a), q, b);
      var tail := mid + q + post;
      |tail| <= |r| && r[|r| - |tail|..] == tail && Contains(r, q)
  {
    FillFirstSlot(pre, p, mid, q, post, a);
    Regroup(pre, a, mid, q, post);
    OccurrencesConcatAtLeast(pre, a, q);
    var tail := mid + q + post;
    ReplaceFirstKeepsTail(pre + a, tail, q, b);
    var r := ReplaceFirst(pre + a + tail, q, b);
    assert r == r[..|r| - |tail|] + tail;
    ContainsInfix(mid, q, post);
    OccurrencesConcatAtLeast(r[..|r| - |tail|], tail, q);
  }

  /** Substitution order matters: when the business name itself contains
      `{location}` and the template names the business first, the second
      `replace` rewrites the name's copy, and the headline ends with the
      template's text after `{business}` as written — its own `{location}`
      included. */
  lemma NameShadowsLocation(i: nat, name: string, location: string)
    requires i < |SeoHeadlines| && BusinessFirst(SeoHeadlines[i])
    requires Literal(name)
    requires Contains(name, LocationToken)
    ensures var t := SeoHeadlines[i];
      var h := Fill(t, name, location);
      var tail := t[IndexOf(t, BusinessToken).value + |BusinessToken|..];
      && Contains(tail, LocationToken)
      && |tail| <= |h| && h[|h| - |tail|..] == tail
      && Contains(h, LocationToken)
  {
    var pre, mid, post := BusinessFirstShape(i);
    PlainApart(pre, mid, post);
    ContainsInfix(mid, LocationToken, post);
    ReplaceShadowed(pre, mid, post, BusinessToken, LocationToken, name, location);
  }

  /** A business-first template, split at its placeholders; the text after
      `{business}` is the rest of it. */
  lemma BusinessFirstShape(i: nat) returns (pre: string, mid: string, post: string)
    requires i < |SeoHeadlines| && BusinessFirst(SeoHeadlines[i])
    ensures var t := SeoHeadlines[i];
      && t == pre + BusinessToken + mid + LocationToken + post && Plain(pre, mid, post)
      && t[IndexOf(t, BusinessToken).value + |BusinessToken|..] == mid + LocationToken + post
  {
    var businessFirst;
    businessFirst, pre, mid, post := TemplateShape(i);
    ShapeOrder(businessFirst, pre, mid, post);
    PlainApart(pre, mid, post);
    TokensDistinct();
    SlotOrder(pre, mid, post, BusinessToken, LocationToken);
    Regroup(pre, BusinessToken, mid, LocationToken, post);
  }

  /** Seven of the ten templates name the business first: all but 1, 4 and 8. */
  lemma BusinessFirstTemplates(i: nat)
    requires i < |SeoHeadlines|
    ensures BusinessFirst(SeoHeadlines[i]) <==> i != 1 && i != 4 && i != 8
  {
    var businessFirst, pre, mid, post := TemplateShape(i);
    ShapeOrder(businessFirst, pre, mid, post);
  }

  /** `replace` expands `$` patterns in the replacement: a business name of
      `$&` puts the matched `{business}` straight back into the headline. */
  lemma DollarPatternKeepsPlaceholder(i: nat, location: string)
    requires i < |SeoHeadlines| && Literal(location)
    ensures Contains(Fill(SeoHeadlines[i], "$&", location), BusinessToken)
  {
    var businessFirst, pre, mid, post := TemplateShape(i);
    PlainApart(pre, mid, post);
    TokensDistinct();
    ReplaceWithMatchIsIdentity(SeoHeadlines[i], BusinessToken);
    if businessFirst {
      FillSecondSlot(pre, BusinessToken, mid, LocationToken, post, location);
      Regroup(pre, BusinessToken, mid, location, post);
      ContainsInfix(pre, BusinessToken, mid + location + post);
    } else {
      FillFirstSlot(pre, LocationToken, mid, BusinessToken, post, location);
      ContainsInfix(pre + location + mid, BusinessToken, post);
    }
  }

  // ---------------------------------------------------------------------
  // The HTTP routes
  // ---------------------------------------------------------------------

  /** The two inputs as a route reads them, from the JSON body (POST) or the
      query string (GET); `None` when absent. */
  datatype Request = Request(name: Option<string>, location: Option<string>)

  /** JSON response bodies; `rating` is in tenths. */
  datatype Body =
    | ErrorBody(error: string)
    | InsightBody(rating: int, reviews: int, headline: string)
    | HeadlineBody(headline: string)
    | MessageBody(message: string)

  datatype Response = Response(status: int, body: Body)

  /** A response and the draws the handler left in the random stream. */
  datatype Handled = Handled(response: Response, rest: seq<real>)

  const RequiredMessage := "Business name and location are required"
  const BadRequest := Response(400, ErrorBody(RequiredMessage))

  /** JavaScript falsiness of a string field: absent or empty. */
  predicate Falsy(v: Option<string>)
  {
    v.None? || v.value == ""
  }

  /** The check both routes make before generating anything. */
  predicate Rejects(req: Request)
  {
    Falsy(req.name) || Falsy(req.location)
  }

  /** `generateBusinessData()`: the rating from the first draw and the review
      count from the second. */
  function GenerateBusinessData(rng: seq<real>): (data: (int, int))
    requires IsDrawStream(rng) && |rng| >= 2
    ensures 30 <= data.0 <= 50 && 50 <= data.1 <= 549
  {
    (RatingTenths(rng[0]), ReviewCount(rng[1]))
  }

  /** POST /business-data: 400 with the fixed message, drawing nothing, when
      either input is missing or empty; otherwise 200 with a rating, a review
      count and a headline filled from one of the ten templates. */
  function PostBusinessData(req: Request, rng: seq<real>): (h: Handled)
    requires IsDrawStream(rng) && |rng| >= 3
    ensures h.response.status == 400 <==> Rejects(req)
    ensures Rejects(req) ==> h.response == BadRequest && h.rest == rng
    ensures !Rejects(req) ==>
      && h.response.status == 200 && h.rest == rng[3..]
      && h.response.body.InsightBody?
      && 30 <= h.response.body.rating <= 50 && 50 <= h.response.body.reviews <= 549
      && exists i :: 0 <= i < |SeoHeadlines| && h.response.body.headline == Fill(SeoHeadlines[i], req.name.value, req.location.value)
  {
    if Rejects(req) then Handled(BadRequest, rng)
    else
      var (rating, reviews) := GenerateBusinessData(rng);
      var headline := RandomHeadline(rng[2], req.name.value, req.location.value);
      Handled(Response(200, InsightBody(rating, reviews, headline)), rng[3..])
  }

  /** GET /regenerate-headline: the same check; on success a fresh headline
      only, from a single draw, with no rating and no review count. */
  function GetRegenerateHeadline(req: Request, rng: seq<real>): (h: Handled)
    requires IsDrawStream(rng) && |rng| >= 1
    ensures h.response.status == 400 <==> Rejects(req)
    ensures Rejects(req) ==> h.response == BadRequest && h.rest == rng
    ensures !Rejects(req) ==>
      && h.response.status == 200 && h.rest == rng[1..]
      && h.response.body.HeadlineBody?
      && exists i :: 0 <= i < |SeoHeadlines| && h.response.body.headline == Fill(SeoHeadlines[i], req.name.value, req.location.value)
  {
    if Rejects(req) then Handled(BadRequest, rng)
    else Handled(Response(200, HeadlineBody(RandomHeadline(rng[0], req.name.value, req.location.value))), rng[1..])
  }

  /** GET /: the liveness message. */
  function GetRoot(): (r: Response)
    ensures r.status == 200 && r.body.MessageBody?
  {
    Response(200, MessageBody("Business Dashboard Backend is running!"))
  }

  /** An accepted request with clean inputs yields a headline that holds both
      inputs verbatim and no placeholder, on either route. */
  lemma AcceptedHeadlines(req: Request, rng: seq<real>)
    requires IsDrawStream(rng) && |rng| >= 3 && !Rejects(req)
    requires Clean(req.name.value) && Clean(req.location.value)
    ensures var h := PostBusinessData(req, rng).response.body.headline;
      && Contains(h, req.name.value) && Contains(h, req.location.value)
      && !Contains(h, BusinessToken) && !Contains(h, LocationToken)
    ensures var h := GetRegenerateHeadline(req, rng).response.body.headline;
      && Contains(h, req.name.value) && Contains(h, req.location.value)
      && !Contains(h, BusinessToken) && !Contains(h, LocationToken)
  {
    FilledHeadline(TemplateIndex(rng[2]), req.name.value, req.location.value);
    FilledHeadline(TemplateIndex(rng[0]), req.name.value, req.location.value);
  }
}
