/**
 * Job categories of the labour module: the comma-separated listing, the
 * qualification check, the `title` alias of `name`, slug defaulting on save
 * and the dictionary exported to the roster API.
 */
module JobCategories {
  import opened Wrappers
  import opened Strings
  import opened OrderedDicts

  datatype Qualification = Qualification(slug: string)

  /**
   * A value of an `as_dict` document. The title and slug are text; the job,
   * requirement, allocation and people lists are built by code outside this
   * model (`Job.as_dict`, `JobRequirement.*_as_integer_array`,
   * `Signup.as_dict`) and stand here for "the list that code builds".
   */
  datatype DocValue =
    | Text(text: string)
    | JobDicts(includeShifts: bool)
    | RequirementCounts
    | AllocatedCounts
    | PeopleDicts

  type Doc = Dict<string, DocValue>

  datatype AsDictError = AssertionError(message: string)

  const ShiftsNeedJobsMessage := "If include_shifts is specified, must specify also include_jobs"

  class JobCategory {
    var name: string
    var slug: string

    constructor (name: string, slug: string)
      ensures this.name == name && this.slug == slug
    {
      this.name := name;
      this.slug := slug;
    }

    /** The `title` property: another name for `name`. */
    function Title(): string
      reads this
    {
      name
    }

    /** The `title` setter: writes `name`, so reading either back gives the new title. */
    method SetTitle(newTitle: string)
      modifies this
      ensures name == newTitle && Title() == newTitle
      ensures slug == old(slug)
    {
      name := newTitle;
    }

    /**
     * The slug step of `save`: a category with a name and no slug gets the
     * slugified name; an existing slug is kept. `slugify` is a parameter.
     */
    method Save(slugify: string -> string)
      modifies this
      ensures slug == DefaultSlug(old(name), old(slug), slugify)
      ensures name == old(name)
    {
      if name != "" && slug == "" {
        slug := slugify(name);
      }
    }

    /**
     * `as_dict`: `title` and `slug` first, then `jobs` with the jobs flag,
     * `requirements` and `allocated` with the requirements flag and `people`
     * with the people flag. Asking for shifts without jobs fails the
     * assertion before anything is built.
     */
    method AsDict(includeJobs: bool, includeRequirements: bool, includePeople: bool, includeShifts: bool)
      returns (r: Result<Doc, AsDictError>)
      ensures r.Failure? <==> includeShifts && !includeJobs
      ensures r.Failure? ==> r.error == AssertionError(ShiftsNeedJobsMessage)
      ensures r.Success? ==> r.value == ExpectedDoc(Title(), slug, includeJobs, includeRequirements, includePeople, includeShifts)
    {
      if includeShifts && !includeJobs {
        return Failure(AssertionError(ShiftsNeedJobsMessage));
      }
      var doc: Doc := [("title", Text(Title())), ("slug", Text(slug))];
      ghost var head := doc;
      if includeJobs {
        PutNew(doc, "jobs", JobDicts(includeShifts));
        doc := Put(doc, "jobs", JobDicts(includeShifts));
      }
      assert doc == head + JobsPart(includeJobs, includeShifts);
      if includeRequirements {
        PutNew(doc, "requirements", RequirementCounts);
        doc := Put(doc, "requirements", RequirementCounts);
        PutNew(doc, "allocated", AllocatedCounts);
        doc := Put(doc, "allocated", AllocatedCounts);
      }
      assert doc == head + JobsPart(includeJobs, includeShifts) + RequirementsPart(includeRequirements);
      if includePeople {
        PutNew(doc, "people", PeopleDicts);
        doc := Put(doc, "people", PeopleDicts);
      }
      return Success(doc);
    }

    /** `as_roster_api_dict`: jobs with shifts, and people; it never trips the assertion. */
    method AsRosterApiDict() returns (r: Result<Doc, AsDictError>)
      ensures r.Success?
      ensures Keys(r.value) == ["title", "slug", "jobs", "people"]
      ensures Get(r.value, "jobs") == Some(JobDicts(true))
    {
      r := AsDict(true, false, true, true);
      ExpectedDocKeys(Title(), slug, true, false, true, true);
      ExpectedDocJobs(Title(), slug, true, false, true, true);
    }
  }

  /** The slug `save` leaves behind. */
  function DefaultSlug(name: string, slug: string, slugify: string -> string): string {
    if name != "" && slug == "" then slugify(name) else slug
  }

  /** An existing slug is never changed, and saving twice gives the slug of saving once. */
  lemma DefaultSlugStable(name: string, slug: string, slugify: string -> string)
    ensures slug != "" ==> DefaultSlug(name, slug, slugify) == slug
    ensures DefaultSlug(name, DefaultSlug(name, slug, slugify), slugify) == DefaultSlug(name, slug, slugify)
    ensures name != "" && slug == "" ==> DefaultSlug(name, slug, slugify) == slugify(name)
  {
  }

  /** The document `as_dict` returns for the given flags, as a list of entries in insertion order. */
  function ExpectedDoc(title: string, slug: string, includeJobs: bool, includeRequirements: bool,
                       includePeople: bool, includeShifts: bool): Doc {
    [("title", Text(title)), ("slug", Text(slug))]
      + JobsPart(includeJobs, includeShifts)
      + RequirementsPart(includeRequirements)
      + PeoplePart(includePeople)
  }

  function JobsPart(includeJobs: bool, includeShifts: bool): Doc {
    if includeJobs then [("jobs", JobDicts(includeShifts))] else []
  }

  function RequirementsPart(includeRequirements: bool): Doc {
    if includeRequirements then [("requirements", RequirementCounts), ("allocated", AllocatedCounts)] else []
  }

  function PeoplePart(includePeople: bool): Doc {
    if includePeople then [("people", PeopleDicts)] else []
  }

  /**
   * The keys of the document: `title` and `slug` always; `jobs` exactly
   * with the jobs flag; `requirements` and `allocated` exactly with the
   * requirements flag; `people` exactly with the people flag; no key twice.
   */
  lemma ExpectedDocKeys(title: string, slug: string, includeJobs: bool, includeRequirements: bool,
                        includePeople: bool, includeShifts: bool)
    ensures var ks := Keys(ExpectedDoc(title, slug, includeJobs, includeRequirements, includePeople, includeShifts));
      && ks == ["title", "slug"]
        + (if includeJobs then ["jobs"] else [])
        + (if includeRequirements then ["requirements", "allocated"] else [])
        + (if includePeople then ["people"] else [])
      && NoDuplicates(ks)
      && ("jobs" in ks <==> includeJobs)
      && ("requirements" in ks <==> includeRequirements) && ("allocated" in ks <==> includeRequirements)
      && ("people" in ks <==> includePeople)
  {
    var head: Doc := [("title", Text(title)), ("slug", Text(slug))];
    var j := JobsPart(includeJobs, includeShifts);
    var q := RequirementsPart(includeRequirements);
    var p := PeoplePart(includePeople);
    KeysConcat(head, j);
    KeysConcat(head + j, q);
    KeysConcat(head + j + q, p);
    var kh: seq<string> := ["title", "slug"];
    var kj: seq<string> := if includeJobs then ["jobs"] else [];
    var kq: seq<string> := if includeRequirements then ["requirements", "allocated"] else [];
    var kp: seq<string> := if includePeople then ["people"] else [];
    assert Keys(head) == kh && Keys(j) == kj && Keys(q) == kq && Keys(p) == kp;
    assert "title" != "slug" && "requirements" != "allocated";
    assert "jobs" !in kh;
    NoDuplicatesConcat(kh, kj);
    assert "requirements" !in kh + kj && "allocated" !in kh + kj;
    NoDuplicatesConcat(kh + kj, kq);
    assert "people" !in kh + kj + kq;
    NoDuplicatesConcat(kh + kj + kq, kp);
  }

  /** The `jobs` entry carries the shifts flag through to the job dictionaries. */
  lemma ExpectedDocJobs(title: string, slug: string, includeJobs: bool, includeRequirements: bool,
                        includePeople: bool, includeShifts: bool)
    requires includeJobs
    ensures Get(ExpectedDoc(title, slug, includeJobs, includeRequirements, includePeople, includeShifts), "jobs")
      == Some(JobDicts(includeShifts))
  {
    var d := ExpectedDoc(title, slug, includeJobs, includeRequirements, includePeople, includeShifts);
    assert d[2] == ("jobs", JobDicts(includeShifts));
    assert d[0].0 != "jobs" && d[1].0 != "jobs";
    assert IndexOf(d, "jobs") == Some(2) by {
      assert IndexOf(d[1..], "jobs") == Some(1) by {
        assert IndexOf(d[1..][1..], "jobs") == Some(0);
      }
    }
  }

  /** The names of the categories, in order. */
  function NamesOf(jcs: seq<JobCategory>): (names: seq<string>)
    reads jcs
    ensures |names| == |jcs|
    ensures forall i :: 0 <= i < |jcs| ==> names[i] == jcs[i].name
  {
    if jcs == [] then [] else NamesOf(jcs[..|jcs| - 1]) + [jcs[|jcs| - 1].name]
  }

  /** `format_job_categories`: the names joined with ", ", in input order. */
  function FormatJobCategories(jcs: seq<JobCategory>): string
    reads jcs
  {
    Join(", ", NamesOf(jcs))
  }

  /** Cuts a listing at each comma and drops the one space after it: the reader of `", ".join`. */
  function SplitListing(s: string): seq<string>
    decreases |s|
  {
    match FirstIndexOf(s, ',')
    case None => [s]
    case Some(i) => [s[..i]] + SplitListing(RemovePrefix(s[i + 1..], " "))
  }

  /** One step of the reader: a comma-free first name, then ", " and the rest. */
  lemma SplitListingCons(first: string, rest: string)
    requires ',' !in first
    ensures SplitListing(first + ", " + rest) == [first] + SplitListing(rest)
  {
    var s := first + ", " + rest;
    assert s == first + (", " + rest);
    FirstIndexOfConcat(first, ", " + rest, ',');
    assert s[..|first|] == first;
    assert s[|first| + 1..] == " " + rest;
    assert StartsWith(" " + rest, " ");
    assert RemovePrefix(" " + rest, " ") == rest;
  }

  /** Reading a listing back gives the names, in order, when no name holds a comma. */
  lemma {:induction false} SplitJoin(names: seq<string>)
    requires names != []
    requires forall i :: 0 <= i < |names| ==> ',' !in names[i]
    ensures SplitListing(Join(", ", names)) == names
  {
    if |names| > 1 {
      var rest := names[1..];
      assert Join(", ", names) == names[0] + ", " + Join(", ", rest);
      SplitListingCons(names[0], Join(", ", rest));
      SplitJoin(rest);
      assert names == [names[0]] + rest;
    } else {
      assert Join(", ", names) == names[0];
    }
  }

  /** The listing of categories whose names hold no comma reads back as their names. */
  lemma FormatJobCategoriesReadsBack(jcs: seq<JobCategory>)
    requires jcs != []
    requires forall i :: 0 <= i < |jcs| ==> ',' !in jcs[i].name
    ensures SplitListing(FormatJobCategories(jcs)) == NamesOf(jcs)
  {
    SplitJoin(NamesOf(jcs));
  }

  /** `all(qual in quals for qual in required)`. */
  function AllHeld(required: seq<Qualification>, held: seq<Qualification>): (b: bool)
    ensures b <==> forall i :: 0 <= i < |required| ==> required[i] in held
  {
    if required == [] then true else required[0] in held && AllHeld(required[1..], held)
  }

  /**
   * `is_person_qualified`: qualified when the category requires nothing,
   * otherwise exactly when every required qualification is among the
   * person's.
   */
  function IsPersonQualified(required: seq<Qualification>, held: seq<Qualification>): (b: bool)
    ensures required == [] ==> b
    ensures b <==> forall q :: q in required ==> q in held
  {
    if required == [] then true
    else
      var ok := AllHeld(required, held);
      assert ok ==> forall q :: q in required ==> q in held by {
        if ok {
          forall q | q in required ensures q in held {
            var i :| 0 <= i < |required| && required[i] == q;
          }
        }
      }
      ok
  }
}
