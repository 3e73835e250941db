/**
 * The two request middlewares: the page-wizard clearing decision and the
 * event/organisation lookup from the resolved URL's keyword arguments.
 */
module Middleware {
  import opened Wrappers
  import opened Strings

  /** Paths that must not end a page-wizard flow (a sign-up confirmation link, the OAuth2 and OIDC endpoints). */
  const NeverBlowPageWizardPrefixes: seq<string> := ["/desuprofile/confirm/", "/oauth2/", "/oidc/"]

  /** Does `path` start with one of the never-blow prefixes? */
  predicate UnderNeverBlowPrefix(path: string) {
    exists i :: 0 <= i < |NeverBlowPageWizardPrefixes| && StartsWith(path, NeverBlowPageWizardPrefixes[i])
  }

  /**
   * `_should_clear_page_wizard` as the code reads: no decision to clear
   * without an active wizard (a "related" session entry), for a method other
   * than GET, or on one of the wizard's related paths; past those guards it
   * clears exactly when the path is UNDER a never-blow prefix.
   */
  function ShouldClearAsWritten(related: Option<seq<string>>, httpMethod: string, path: string): (b: bool)
    ensures related.None? ==> !b
    ensures httpMethod != "GET" ==> !b
    ensures related.Some? && path in related.value ==> !b
    ensures related.Some? && httpMethod == "GET" && path !in related.value ==> (b <==> UnderNeverBlowPrefix(path))
  {
    if related.None? then false
    else if httpMethod != "GET" then false
    else if path in related.value then false
    else UnderNeverBlowPrefix(path)
  }

  /**
   * A GET of a sign-up confirmation link during a wizard flow, the very case
   * the prefix list exists for, clears the wizard as written; and a GET of
   * an unrelated ordinary page does not.
   */
  lemma AsWrittenInverted()
    ensures ShouldClearAsWritten(Some(["/signup/"]), "GET", "/desuprofile/confirm/abc")
    ensures !ShouldClearAsWritten(Some(["/signup/"]), "GET", "/events/")
  {
    var p := "/desuprofile/confirm/abc";
    assert StartsWith(p, NeverBlowPageWizardPrefixes[0]);
    var q := "/events/";
    forall i | 0 <= i < |NeverBlowPageWizardPrefixes| ensures !StartsWith(q, NeverBlowPageWizardPrefixes[i]) {
      assert q[1] != NeverBlowPageWizardPrefixes[i][1];
    }
  }

  /**
   * The decision the middleware's name, its docstring and the prefix list's
   * comment describe: clear an active wizard on a GET of a page that is
   * neither one of its related pages nor under a never-blow prefix.
   */
  function ShouldClearPageWizard(related: Option<seq<string>>, httpMethod: string, path: string): (b: bool)
    ensures b <==> related.Some? && httpMethod == "GET" && path !in related.value && !UnderNeverBlowPrefix(path)
  {
    if related.None? then false
    else if httpMethod != "GET" then false
    else if path in related.value then false
    else !UnderNeverBlowPrefix(path)
  }

  /** The corrected decision differs from the written one on exactly the paths past the three guards. */
  lemma CorrectedIsNegation(related: Option<seq<string>>, httpMethod: string, path: string)
    requires related.Some? && httpMethod == "GET" && path !in related.value
    ensures ShouldClearPageWizard(related, httpMethod, path) == !ShouldClearAsWritten(related, httpMethod, path)
  {
  }

  /** A never-blow path never clears the wizard. */
  lemma NeverBlowKeepsWizard(related: Option<seq<string>>, httpMethod: string, path: string)
    requires StartsWith(path, "/oauth2/") || StartsWith(path, "/oidc/") || StartsWith(path, "/desuprofile/confirm/")
    ensures !ShouldClearPageWizard(related, httpMethod, path)
  {
    if StartsWith(path, "/desuprofile/confirm/") {
      assert StartsWith(path, NeverBlowPageWizardPrefixes[0]);
    } else if StartsWith(path, "/oauth2/") {
      assert StartsWith(path, NeverBlowPageWizardPrefixes[1]);
    } else {
      assert StartsWith(path, NeverBlowPageWizardPrefixes[2]);
    }
  }

  datatype Organization = Organization(slug: string, name: string)

  datatype Event = Event(slug: string, organization: Organization)

  /** The resolved URL (`request.resolver_match`): its keyword arguments. */
  datatype ResolverMatch = ResolverMatch(kwargs: map<string, string>)

  function EventSlug(e: Event): string {
    e.slug
  }

  function OrganizationSlug(o: Organization): string {
    o.slug
  }

  /**
   * `Model.objects.filter(slug=slug).first()` over the table `rows`, whose
   * rows have the slugs `slugOf`: None iff no row has the slug, otherwise the
   * first row that has it.
   */
  function FirstBySlug<T>(rows: seq<T>, slugOf: T -> string, slug: string): (r: Option<T>)
    ensures r.None? <==> forall i :: 0 <= i < |rows| ==> slugOf(rows[i]) != slug
    ensures r.Some? ==> exists i :: (0 <= i < |rows| && rows[i] == r.value
      && forall j :: 0 <= j < i ==> slugOf(rows[j]) != slug)
    ensures r.Some? ==> slugOf(r.value) == slug
  {
    if rows == [] then None
    else if slugOf(rows[0]) == slug then Some(rows[0])
    else
      var r := FirstBySlug(rows[1..], slugOf, slug);
      assert r.Some? ==> exists i :: (0 < i < |rows| && rows[i] == r.value
        && forall j :: 0 <= j < i ==> slugOf(rows[j]) != slug) by {
        if r.Some? {
          var i :| 0 <= i < |rows[1..]| && rows[1..][i] == r.value
            && forall j :: 0 <= j < i ==> slugOf(rows[1..][j]) != slug;
          assert rows[i + 1] == r.value;
          forall j | 0 <= j < i + 1 ensures slugOf(rows[j]) != slug {
            if j > 0 { assert rows[j] == rows[1..][j - 1]; }
          }
        }
      }
      assert r.None? ==> forall i :: 0 <= i < |rows| ==> slugOf(rows[i]) != slug by {
        if r.None? {
          forall i | 0 < i < |rows| ensures slugOf(rows[i]) != slug {
            assert rows[i] == rows[1..][i - 1];
          }
        }
      }
      r
  }

  /** A keyword argument as Python's truth test sees it: present and non-empty. */
  predicate Truthy(kwargs: map<string, string>, key: string) {
    key in kwargs && kwargs[key] != ""
  }

  /**
   * The request state the middlewares read and write: the method, the path,
   * the page wizard's "related" session entry, the resolved URL, and the
   * `event`/`organization` attributes. `pageWizardClears` counts the calls
   * to `page_wizard_clear`, whose effect on the session is not part of this
   * model.
   */
  class Request {
    const httpMethod: string
    const path: string
    const related: Option<seq<string>>
    const resolverMatch: Option<ResolverMatch>
    var pageWizardClears: nat
    var event: Option<Event>
    var organization: Option<Organization>

    constructor (httpMethod: string, path: string, related: Option<seq<string>>, resolverMatch: Option<ResolverMatch>)
      ensures this.httpMethod == httpMethod && this.path == path
      ensures this.related == related && this.resolverMatch == resolverMatch
      ensures pageWizardClears == 0 && event == None && organization == None
    {
      this.httpMethod := httpMethod;
      this.path := path;
      this.related := related;
      this.resolverMatch := resolverMatch;
      pageWizardClears := 0;
      event := None;
      organization := None;
    }

    /** `PageWizardMiddleware.process_view`: clear the wizard once when the decision says so, and nothing else. */
    method PageWizardProcessView()
      modifies this
      ensures pageWizardClears == old(pageWizardClears) + (if ShouldClearPageWizard(related, httpMethod, path) then 1 else 0)
      ensures event == old(event) && organization == old(organization)
    {
      if ShouldClearPageWizard(related, httpMethod, path) {
        pageWizardClears := pageWizardClears + 1;
      }
    }

    /**
     * `EventOrganizationMiddleware.process_view`: both attributes start at
     * None. A truthy `event_slug` decides alone: when the event exists it and
     * its organisation are set, otherwise both stay None. Only without one
     * does a truthy `organization_slug` look up the organisation.
     */
    method EventOrganizationProcessView(events: seq<Event>, organizations: seq<Organization>)
      modifies this
      ensures resolverMatch.None? ==> event.None? && organization.None?
      ensures resolverMatch.Some? && Truthy(resolverMatch.value.kwargs, "event_slug") ==>
        && event == FirstBySlug(events, EventSlug, resolverMatch.value.kwargs["event_slug"])
        && organization == (if event.Some? then Some(event.value.organization) else None)
      ensures resolverMatch.Some? && !Truthy(resolverMatch.value.kwargs, "event_slug") ==>
        && event.None?
        && organization == (if Truthy(resolverMatch.value.kwargs, "organization_slug")
          then FirstBySlug(organizations, OrganizationSlug, resolverMatch.value.kwargs["organization_slug"]) else None)
      ensures pageWizardClears == old(pageWizardClears)
    {
      event := None;
      organization := None;
      if resolverMatch.Some? {
        var kwargs := resolverMatch.value.kwargs;
        if Truthy(kwargs, "event_slug") {
          var found := FirstBySlug(events, EventSlug, kwargs["event_slug"]);
          if found.Some? {
            event := found;
            organization := Some(found.value.organization);
          }
        } else if Truthy(kwargs, "organization_slug") {
          organization := FirstBySlug(organizations, OrganizationSlug, kwargs["organization_slug"]);
        }
      }
    }
  }
}
