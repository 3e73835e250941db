/**
 * Language versions of surveys and offer forms: the lookup of the form for a
 * requested language with its fallback through the configured languages, the
 * base-language-first ordering used before merging fields, and the display
 * name of an event survey. `GlobalSurvey.get_form`, `EventSurvey.get_form`
 * and `OfferForm.get_form` are the same code, modelled once as GetForm.
 */
module Surveys {
  import opened Wrappers
  import opened Strings

  /** One language version of a form (a `GlobalForm` or an `EventForm` row). */
  datatype Form = Form(language: string, slug: string)

  /** The two failures of a Django `.get(...)`. */
  datatype GetError = DoesNotExist | MultipleObjectsReturned

  /** The forms of `forms` in language `lang`, in order. */
  function FormsIn(forms: seq<Form>, lang: string): (r: seq<Form>)
    ensures forall f :: f in r <==> f in forms && f.language == lang
    ensures |r| <= |forms|
  {
    if forms == [] then []
    else if forms[0].language == lang then [forms[0]] + FormsIn(forms[1..], lang)
    else FormsIn(forms[1..], lang)
  }

  predicate HasLanguage(forms: seq<Form>, lang: string) {
    exists i :: 0 <= i < |forms| && forms[i].language == lang
  }

  /** A language no form has filters to nothing. */
  lemma {:induction false} NoFormsIn(forms: seq<Form>, lang: string)
    requires forall j :: 0 <= j < |forms| ==> forms[j].language != lang
    ensures FormsIn(forms, lang) == []
  {
    if forms != [] {
      assert forall j :: 0 <= j < |forms[1..]| ==> forms[1..][j] == forms[j + 1];
      NoFormsIn(forms[1..], lang);
    }
  }

  /** A language with exactly one form, at `i`, filters to that one form. */
  lemma {:induction false} SingleFormIn(forms: seq<Form>, lang: string, i: nat)
    requires i < |forms| && forms[i].language == lang
    requires forall j :: 0 <= j < |forms| && j != i ==> forms[j].language != lang
    ensures FormsIn(forms, lang) == [forms[i]]
  {
    var rest := forms[1..];
    if i == 0 {
      forall j | 0 <= j < |rest| ensures rest[j].language != lang {
        assert rest[j] == forms[j + 1];
      }
      NoFormsIn(rest, lang);
    } else {
      forall j | 0 <= j < |rest| && j != i - 1 ensures rest[j].language != lang {
        assert rest[j] == forms[j + 1];
      }
      SingleFormIn(rest, lang, i - 1);
    }
  }

  /** Two forms in one language filter to at least two. */
  lemma {:induction false} TwoFormsIn(forms: seq<Form>, lang: string, i: nat, j: nat)
    requires i < j < |forms| && forms[i].language == lang && forms[j].language == lang
    ensures |FormsIn(forms, lang)| >= 2
  {
    var rest := forms[1..];
    assert rest[j - 1] == forms[j];
    if forms[0].language == lang {
      assert forms[j] in FormsIn(rest, lang);
    } else {
      assert rest[i - 1] == forms[i];
      TwoFormsIn(rest, lang, i - 1, j - 1);
    }
  }

  /** `languages.get(language=lang)`: the one form in that language, or the error for none or several. */
  function GetByLanguage(forms: seq<Form>, lang: string): (r: Result<Form, GetError>)
    ensures r == Failure(DoesNotExist) <==> !HasLanguage(forms, lang)
    ensures r.Success? ==> r.value in forms && r.value.language == lang
    ensures r.Success? ==> forall i :: 0 <= i < |forms| && forms[i].language == lang ==> forms[i] == r.value
    ensures r == Failure(MultipleObjectsReturned) <==> |FormsIn(forms, lang)| > 1
    ensures |FormsIn(forms, lang)| == 1 ==> r == Success(FormsIn(forms, lang)[0])
  {
    var c := FormsIn(forms, lang);
    assert HasLanguage(forms, lang) <==> c != [] by {
      if c != [] {
        assert c[0] in forms;
        var i :| 0 <= i < |forms| && forms[i] == c[0];
      }
      if HasLanguage(forms, lang) {
        var i :| 0 <= i < |forms| && forms[i].language == lang;
        assert forms[i] in c;
      }
    }
    if c == [] then Failure(DoesNotExist)
    else if |c| > 1 then Failure(MultipleObjectsReturned)
    else
      assert forall i :: 0 <= i < |forms| && forms[i].language == lang ==> forms[i] == c[0] by {
        forall i | 0 <= i < |forms| && forms[i].language == lang ensures forms[i] == c[0] {
          assert forms[i] in c;
        }
      }
      Success(c[0])
  }

  /** Is `languages[i]` a fallback candidate with a form of its own? */
  predicate FallbackHit(forms: seq<Form>, languages: seq<string>, requested: string, i: nat)
    requires i < |languages|
  {
    languages[i] != requested && HasLanguage(forms, languages[i])
  }

  /**
   * The fallback loop over the configured languages from position `k` on:
   * skip the requested one, return (or fail with) the lookup of the first
   * language that has a form, and report DoesNotExist when none has.
   */
  function Fallback(forms: seq<Form>, languages: seq<string>, requested: string, k: nat): Result<Form, GetError>
    requires k <= |languages|
    decreases |languages| - k
  {
    if k == |languages| then Failure(DoesNotExist)
    else if languages[k] == requested then Fallback(forms, languages, requested, k + 1)
    else
      var g := GetByLanguage(forms, languages[k]);
      if g == Failure(DoesNotExist) then Fallback(forms, languages, requested, k + 1) else g
  }

  /**
   * The fallback from position `k` fails with DoesNotExist exactly when no
   * later language is a hit; otherwise it is the lookup of the first hit.
   */
  lemma {:induction false} FallbackFirstHit(forms: seq<Form>, languages: seq<string>, requested: string, k: nat)
    requires k <= |languages|
    ensures Fallback(forms, languages, requested, k) == Failure(DoesNotExist) <==>
      forall i :: k <= i < |languages| ==> !FallbackHit(forms, languages, requested, i)
    ensures Fallback(forms, languages, requested, k) != Failure(DoesNotExist) ==>
      exists i :: (k <= i < |languages| && FallbackHit(forms, languages, requested, i)
        && Fallback(forms, languages, requested, k) == GetByLanguage(forms, languages[i])
        && forall j :: k <= j < i ==> !FallbackHit(forms, languages, requested, j))
    decreases |languages| - k
  {
    if k < |languages| {
      FallbackFirstHit(forms, languages, requested, k + 1);
      var r := Fallback(forms, languages, requested, k);
      if FallbackHit(forms, languages, requested, k) {
        assert r == GetByLanguage(forms, languages[k]) != Failure(DoesNotExist);
      } else {
        assert r == Fallback(forms, languages, requested, k + 1);
        if r != Failure(DoesNotExist) {
          var i :| k + 1 <= i < |languages| && FallbackHit(forms, languages, requested, i)
            && r == GetByLanguage(forms, languages[i])
            && forall j :: k + 1 <= j < i ==> !FallbackHit(forms, languages, requested, j);
          assert forall j :: k <= j < i ==> !FallbackHit(forms, languages, requested, j);
        }
      }
    }
  }

  /**
   * `get_form(requested_language)`: the requested language's form if it
   * has one; otherwise the fallback through `languages` (the codes of
   * `settings.LANGUAGES`, in order). A MultipleObjectsReturned of any lookup
   * is not caught and propagates.
   */
  function GetForm(forms: seq<Form>, languages: seq<string>, requested: string): (r: Result<Form, GetError>)
    ensures HasLanguage(forms, requested) ==> r == GetByLanguage(forms, requested)
    ensures !HasLanguage(forms, requested) ==> r == Fallback(forms, languages, requested, 0)
  {
    var g := GetByLanguage(forms, requested);
    if g == Failure(DoesNotExist) then Fallback(forms, languages, requested, 0) else g
  }

  /** DoesNotExist exactly when neither the requested nor any configured language has a form. */
  lemma GetFormDoesNotExist(forms: seq<Form>, languages: seq<string>, requested: string)
    ensures GetForm(forms, languages, requested) == Failure(DoesNotExist) <==>
      !HasLanguage(forms, requested) && forall i :: 0 <= i < |languages| ==> !HasLanguage(forms, languages[i])
  {
    if !HasLanguage(forms, requested) {
      FallbackFirstHit(forms, languages, requested, 0);
      forall i | 0 <= i < |languages| && FallbackHit(forms, languages, requested, i)
        ensures HasLanguage(forms, languages[i]) {}
      if GetForm(forms, languages, requested) == Failure(DoesNotExist) {
        forall i | 0 <= i < |languages| ensures !HasLanguage(forms, languages[i]) {
          assert !FallbackHit(forms, languages, requested, i);
        }
      }
    }
  }

  /** A returned form is one of the survey's forms, in the requested or a configured language. */
  lemma GetFormLanguage(forms: seq<Form>, languages: seq<string>, requested: string)
    ensures GetForm(forms, languages, requested).Success? ==>
      var f := GetForm(forms, languages, requested).value;
      f in forms && (f.language == requested || f.language in languages)
  {
    var r := GetForm(forms, languages, requested);
    if r.Success? && !HasLanguage(forms, requested) {
      FallbackFirstHit(forms, languages, requested, 0);
      var i :| 0 <= i < |languages| && FallbackHit(forms, languages, requested, i)
        && r == GetByLanguage(forms, languages[i]);
    }
  }

  /**
   * With no form in the requested language, the form returned is that of
   * the first configured language other than the requested one that has a
   * form; the requested language is never tried a second time.
   */
  lemma GetFormFallsBack(forms: seq<Form>, languages: seq<string>, requested: string)
    requires !HasLanguage(forms, requested)
    requires GetForm(forms, languages, requested).Success?
    ensures exists i :: (0 <= i < |languages| && languages[i] != requested
      && GetForm(forms, languages, requested).value.language == languages[i]
      && forall j :: 0 <= j < i && languages[j] != requested ==> !HasLanguage(forms, languages[j]))
  {
    var r := GetForm(forms, languages, requested);
    FallbackFirstHit(forms, languages, requested, 0);
    var i :| 0 <= i < |languages| && FallbackHit(forms, languages, requested, i)
      && r == GetByLanguage(forms, languages[i])
      && forall j :: 0 <= j < i ==> !FallbackHit(forms, languages, requested, j);
    assert r.value.language == languages[i];
    forall j | 0 <= j < i && languages[j] != requested ensures !HasLanguage(forms, languages[j]) {
      assert !FallbackHit(forms, languages, requested, j);
    }
  }

  /** A requested language with exactly one form gets that form; the fallback is never reached. */
  lemma GetFormRequested(forms: seq<Form>, languages: seq<string>, requested: string, i: nat)
    requires i < |forms| && forms[i].language == requested
    requires forall j :: 0 <= j < |forms| && j != i ==> forms[j].language != requested
    ensures GetForm(forms, languages, requested) == Success(forms[i])
  {
    assert HasLanguage(forms, requested);
    SingleFormIn(forms, requested, i);
  }

  /** Two forms in the requested language make the lookup fail with MultipleObjectsReturned, without a fallback. */
  lemma GetFormRequestedTwice(forms: seq<Form>, languages: seq<string>, requested: string, i: nat, j: nat)
    requires i < j < |forms| && forms[i].language == requested && forms[j].language == requested
    ensures GetForm(forms, languages, requested) == Failure(MultipleObjectsReturned)
  {
    assert HasLanguage(forms, requested);
    TwoFormsIn(forms, requested, i, j);
  }

  /**
   * With no form in the requested language, when configured language `k` is
   * the first other than the requested one to have a form, and it has
   * exactly one, `get_form` returns that form.
   */
  lemma GetFormFirstFallback(forms: seq<Form>, languages: seq<string>, requested: string, k: nat, i: nat)
    requires !HasLanguage(forms, requested)
    requires k < |languages| && languages[k] != requested
    requires forall j :: 0 <= j < k && languages[j] != requested ==> !HasLanguage(forms, languages[j])
    requires i < |forms| && forms[i].language == languages[k]
    requires forall j :: 0 <= j < |forms| && j != i ==> forms[j].language != languages[k]
    ensures GetForm(forms, languages, requested) == Success(forms[i])
  {
    assert HasLanguage(forms, languages[k]);
    assert FallbackHit(forms, languages, requested, k);
    FallbackFirstHit(forms, languages, requested, 0);
    var h :| 0 <= h < |languages| && FallbackHit(forms, languages, requested, h)
      && Fallback(forms, languages, requested, 0) == GetByLanguage(forms, languages[h])
      && forall j :: 0 <= j < h ==> !FallbackHit(forms, languages, requested, j);
    assert h == k;
    SingleFormIn(forms, languages[k], i);
  }

  // Ordering of the language versions before their fields are merged.

  /** The sort key of `get_combined_fields`: False for the base language, True for the others. */
  function NotBase(f: Form, base: string): bool {
    f.language != base
  }

  /** Places `f` before the first element whose key is not smaller (`False < True`), as a stable sort does for an earlier element. */
  function InsertByKey(f: Form, s: seq<Form>, base: string): seq<Form> {
    if s == [] then [f]
    else if !NotBase(f, base) || NotBase(s[0], base) then [f] + s
    else [s[0]] + InsertByKey(f, s[1..], base)
  }

  /** `sorted(forms, key=lambda form: form.language != base)`, as a stable insertion sort. */
  function SortByNotBase(forms: seq<Form>, base: string): seq<Form> {
    if forms == [] then []
    else InsertByKey(forms[0], SortByNotBase(forms[1..], base), base)
  }

  /** The forms in the base language, in their original order. */
  function BaseForms(forms: seq<Form>, base: string): (r: seq<Form>)
    ensures forall i :: 0 <= i < |r| ==> r[i].language == base
  {
    if forms == [] then []
    else if forms[0].language == base then [forms[0]] + BaseForms(forms[1..], base)
    else BaseForms(forms[1..], base)
  }

  /** The forms in other languages, in their original order. */
  function OtherForms(forms: seq<Form>, base: string): (r: seq<Form>)
    ensures forall i :: 0 <= i < |r| ==> r[i].language != base
  {
    if forms == [] then []
    else if forms[0].language != base then [forms[0]] + OtherForms(forms[1..], base)
    else OtherForms(forms[1..], base)
  }

  lemma InsertOther(f: Form, a: seq<Form>, b: seq<Form>, base: string)
    requires f.language != base
    requires forall i :: 0 <= i < |a| ==> a[i].language == base
    requires forall i :: 0 <= i < |b| ==> b[i].language != base
    ensures InsertByKey(f, a + b, base) == a + [f] + b
  {
    if a == [] {
      assert a + b == b;
    } else {
      assert (a + b)[0] == a[0];
      assert (a + b)[1..] == a[1..] + b;
      InsertOther(f, a[1..], b, base);
    }
  }

  /**
   * The sort is a stable partition: every base-language form first, then
   * every other form, each group in its original order.
   */
  lemma {:induction false} SortIsStablePartition(forms: seq<Form>, base: string)
    ensures SortByNotBase(forms, base) == BaseForms(forms, base) + OtherForms(forms, base)
  {
    if forms != [] {
      var f := forms[0];
      var rest := forms[1..];
      SortIsStablePartition(rest, base);
      var a := BaseForms(rest, base);
      var b := OtherForms(rest, base);
      assert SortByNotBase(forms, base) == InsertByKey(f, a + b, base);
      if f.language == base {
        assert BaseForms(forms, base) == [f] + a;
      } else {
        assert OtherForms(forms, base) == [f] + b;
        InsertOther(f, a, b, base);
      }
    }
  }

  lemma {:induction false} PartitionPermutes(forms: seq<Form>, base: string)
    ensures multiset(BaseForms(forms, base)) + multiset(OtherForms(forms, base)) == multiset(forms)
  {
    if forms != [] {
      PartitionPermutes(forms[1..], base);
      assert forms == [forms[0]] + forms[1..];
    }
  }

  /** The sort loses no form and adds none. */
  lemma SortByNotBasePermutes(forms: seq<Form>, base: string)
    ensures multiset(SortByNotBase(forms, base)) == multiset(forms)
  {
    SortIsStablePartition(forms, base);
    PartitionPermutes(forms, base);
  }

  /** No form in another language comes before a base-language form. */
  lemma SortByNotBaseOrder(forms: seq<Form>, base: string, i: nat, j: nat)
    requires i < j < |SortByNotBase(forms, base)|
    requires SortByNotBase(forms, base)[j].language == base
    ensures SortByNotBase(forms, base)[i].language == base
  {
    SortIsStablePartition(forms, base);
    var a := BaseForms(forms, base);
    var b := OtherForms(forms, base);
    if j < |a| {
      assert SortByNotBase(forms, base)[i] == a[i];
    }
  }

  // Display names.

  /** `EventSurvey.__str__`: "<event slug>/<survey slug>". */
  function EventSurveyName(eventSlug: string, slug: string): string {
    eventSlug + "/" + slug
  }

  /** Splitting a display name at its first slash gives back the two slugs, since an event slug holds no slash. */
  lemma EventSurveyNameSplits(eventSlug: string, slug: string)
    requires '/' !in eventSlug
    ensures var n := EventSurveyName(eventSlug, slug);
      FirstIndexOf(n, '/') == Some(|eventSlug|)
      && n[..|eventSlug|] == eventSlug && n[|eventSlug| + 1..] == slug
  {
    var n := EventSurveyName(eventSlug, slug);
    assert n == eventSlug + ("/" + slug);
    FirstIndexOfConcat(eventSlug, "/" + slug, '/');
  }

  /** Distinct (event, slug) pairs have distinct display names. */
  lemma EventSurveyNameInjective(e1: string, s1: string, e2: string, s2: string)
    requires '/' !in e1 && '/' !in e2
    requires EventSurveyName(e1, s1) == EventSurveyName(e2, s2)
    ensures e1 == e2 && s1 == s2
  {
    EventSurveyNameSplits(e1, s1);
    EventSurveyNameSplits(e2, s2);
  }
}
