/**
 The dashboard's single-page component (Frontend/src/App.js): a form for the
 business name and location, a results page, and the handlers that move
 between them. Each `setState` is an assignment to the fields; each `fetch`
 is a `Reply` handed to the handler, so the awaited request and the
 asynchrony around it are outside the model.
 */
module Frontend {
  import opened Wrappers
  import JsString
  import Server

  /** The two inputs, by their `name` attribute. */
  datatype Field = BusinessName | Location

  /** `currentPage`: 'form' or 'results'. */
  datatype Page = FormPage | ResultsPage

  /** `formData`. */
  datatype FormData = FormData(businessName: string, location: string)
  {
    function Get(f: Field): string
    {
      match f
      case BusinessName => businessName
      case Location => location
    }

    /** `{...formData, [f]: value}`. */
    function With(f: Field, value: string): (d: FormData)
      ensures d.Get(f) == value
      ensures forall g :: g != f ==> d.Get(g) == Get(g)
    {
      match f
      case BusinessName => this.(businessName := value)
      case Location => this.(location := value)
    }
  }

  /** `businessData`, the JSON of a successful reply (`rating` in tenths). A
      headline merged into no data leaves `rating` and `reviews` absent. */
  datatype Insight = Insight(rating: Option<int>, reviews: Option<int>, headline: string)

  /** The outcome of one `fetch`: the parsed JSON of an ok response, or a
      failure (network error, non-ok status, unreadable body). */
  datatype Reply<T> = Ok(data: T) | Failed

  const BusinessNameRequired := "Business name is required"
  const LocationRequired := "Location is required"

  /** `!value.trim()`. */
  predicate Blank(s: string)
  {
    JsString.Trim(s) == ""
  }

  /** What `validateForm` lets through. */
  predicate Accepts(d: FormData)
  {
    !Blank(d.businessName) && !Blank(d.location)
  }

  /** `newErrors` as `validateForm` builds it: a key exactly for each blank
      field, with that field's fixed message. */
  ghost predicate ErrorsFor(d: FormData, e: map<Field, string>)
  {
    && (BusinessName in e <==> Blank(d.businessName))
    && (Location in e <==> Blank(d.location))
    && (BusinessName in e ==> e[BusinessName] == BusinessNameRequired)
    && (Location in e ==> e[Location] == LocationRequired)
  }

  /** The form is accepted exactly when each field has a character that is
      not whitespace. */
  lemma AcceptsIff(d: FormData)
    ensures Accepts(d) <==>
      && (exists k :: 0 <= k < |d.businessName| && !JsString.IsWhitespace(d.businessName[k]))
      && (exists k :: 0 <= k < |d.location| && !JsString.IsWhitespace(d.location[k]))
  {
    JsString.TrimEmpty(d.businessName);
    JsString.TrimEmpty(d.location);
  }

  /** The inputs both requests carry: the JSON body of `handleSubmit` and the
      query string of `handleRegenerateHeadline`, which the backend decodes
      back into the same two strings. */
  function RequestOf(d: FormData): Server.Request
  {
    Server.Request(Some(d.businessName), Some(d.location))
  }

  /** Whatever the form accepts, the backend accepts too: a field that is not
      blank after `trim` is not empty. */
  lemma AcceptedFormPassesBackend(d: FormData, rng: seq<real>)
    requires Accepts(d)
    requires Server.IsDrawStream(rng) && |rng| >= 3
    ensures !Server.Rejects(RequestOf(d))
    ensures Server.PostBusinessData(RequestOf(d), rng).response.status == 200
    ensures Server.GetRegenerateHeadline(RequestOf(d), rng).response.status == 200
  {
    EmptyIsBlank();
    assert d.businessName != "" && d.location != "";
    var req := RequestOf(d);
    assert req.name == Some(d.businessName) && req.location == Some(d.location);
    assert !Server.Rejects(req);
    var _ := Server.PostBusinessData(req, rng);
    var _ := Server.GetRegenerateHeadline(req, rng);
  }

  /** The empty string is blank, so a field that is not blank is not empty. */
  lemma EmptyIsBlank()
    ensures Blank("")
  {
  }

  /** The converse fails: a name of spaces passes the backend's check but not
      the form's. */
  lemma BlankNamePassesOnlyBackend(location: string)
    requires !Blank(location)
    ensures !Accepts(FormData(" ", location)) && !Server.Rejects(RequestOf(FormData(" ", location)))
  {
    assert JsString.TrimStart(" ") == "";
  }

  /** What `render` shows. */
  datatype Screen =
    | ResultsScreen(data: Insight)
    | FormScreen(formData: FormData, errors: map<Field, string>, loading: bool)

  class App {
    var formData: FormData
    var errors: map<Field, string>
    var businessData: Option<Insight>
    var loading: bool
    var currentPage: Page

    /** The results page is only ever current with data to show. */
    ghost predicate Valid()
      reads this
    {
      currentPage == ResultsPage ==> businessData.Some?
    }

    /** The initial `this.state`. */
    constructor ()
      ensures Valid()
      ensures formData == FormData("", "") && errors == map[] && businessData == None
      ensures !loading && currentPage == FormPage
    {
      formData := FormData("", "");
      errors := map[];
      businessData := None;
      loading := false;
      currentPage := FormPage;
    }

    /** `validateForm()`: records an error for each blank field and reports
        whether there was none. */
    method ValidateForm() returns (ok: bool)
      modifies this`errors
      ensures ErrorsFor(formData, errors)
      ensures ok <==> errors == map[]
      ensures ok <==> Accepts(formData)
    {
      var newErrors: map<Field, string> := map[];
      if Blank(formData.businessName) {
        newErrors := newErrors[BusinessName := BusinessNameRequired];
      }
      if Blank(formData.location) {
        newErrors := newErrors[Location := LocationRequired];
      }
      errors := newErrors;
      ok := |newErrors.Keys| == 0;
      if !ok {
        ghost var f :| f in newErrors.Keys;
      }
    }

    /** `handleInputChange`: updates one field and clears its error, leaving
        the other field and its error as they were. */
    method HandleInputChange(name: Field, value: string)
      modifies this`formData, this`errors
      ensures formData == old(formData).With(name, value)
      ensures errors == old(errors)[name := ""]
    {
      formData := formData.With(name, value);
      errors := errors[name := ""];
    }

    /** `handleSubmit`: on a form that fails validation only the errors
        change and nothing is sent; otherwise the request is posted and a
        successful reply becomes the data shown on the results page, while a
        failed one leaves page and data as they were. Loading ends false. */
    method HandleSubmit(reply: Reply<Insight>) returns (sent: Option<Server.Request>)
      requires Valid()
      modifies this`errors, this`loading, this`businessData, this`currentPage
      ensures Valid()
      ensures formData == old(formData) && ErrorsFor(formData, errors)
      ensures sent.Some? <==> Accepts(formData)
      ensures sent.Some? ==> sent.value == RequestOf(formData)
      ensures sent.None? ==>
        loading == old(loading) && businessData == old(businessData) && currentPage == old(currentPage)
      ensures sent.Some? ==> !loading
      ensures sent.Some? && reply.Ok? ==> businessData == Some(reply.data) && currentPage == ResultsPage
      ensures sent.Some? && reply.Failed? ==> businessData == old(businessData) && currentPage == old(currentPage)
    {
      var ok := ValidateForm();
      ghost var checked := errors;
      if !ok {
        return None;
      }
      loading := true;
      sent := Some(RequestOf(formData));
      match reply {
        case Ok(data) =>
          businessData := Some(data);
          currentPage := ResultsPage;
        case Failed =>
      }
      loading := false;
      assert errors == checked;
    }

    /** `handleRegenerateHeadline`: asks for a fresh headline (without
        validating the form) and merges it into the data, keeping the rating
        and the review count. Loading ends false. */
    method HandleRegenerateHeadline(reply: Reply<string>) returns (sent: Server.Request)
      requires Valid()
      modifies this`businessData, this`loading
      ensures Valid()
      ensures sent == RequestOf(formData)
      ensures !loading
      ensures reply.Failed? ==> businessData == old(businessData)
      ensures reply.Ok? ==> businessData.Some? && businessData.value.headline == reply.data
      ensures reply.Ok? && old(businessData).Some? ==>
        businessData.value.rating == old(businessData).value.rating
        && businessData.value.reviews == old(businessData).value.reviews
      ensures reply.Ok? && old(businessData).None? ==> businessData == Some(Insight(None, None, reply.data))
    {
      loading := true;
      sent := RequestOf(formData);
      match reply {
        case Ok(headline) =>
          match businessData {
            case Some(data) => businessData := Some(data.(headline := headline));
            case None => businessData := Some(Insight(None, None, headline));
          }
        case Failed =>
      }
      loading := false;
    }

    /** `goBackToForm`: back to the form, which keeps its inputs. */
    method GoBackToForm()
      requires Valid()
      modifies this`currentPage
      ensures Valid() && currentPage == FormPage
    {
      currentPage := FormPage;
    }

    /** The page `render` picks: results only when the page is 'results' and
        there is data; with the invariant, exactly when the page is 'results'. */
    function Render(): (s: Screen)
      reads this
      ensures s.ResultsScreen? <==> currentPage == ResultsPage && businessData.Some?
      ensures Valid() ==> (s.ResultsScreen? <==> currentPage == ResultsPage)
      ensures s.ResultsScreen? ==> s.data == businessData.value
    {
      if currentPage == ResultsPage && businessData.Some? then ResultsScreen(businessData.value)
      else FormScreen(formData, errors, loading)
    }
  }
}
