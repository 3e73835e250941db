# Kompassi core rules in Dafny

This project models the small, sequential rules at the heart of several
parts of the Kompassi event management system, and proves what they
promise.

- **Emprinten PDF renderer** (`render_pdf`). A project's file versions
  become a name-keyed virtual file set, where a later version of a name
  replaces an earlier one. The first Main file is compiled with Jinja
  against a data set. In split mode this gives one numbered HTML file per
  row (`001.html`, `002.html`, …). In merged mode it gives a single
  `master.html`. WeasyPrint turns each HTML file into a PDF of the same
  stem. The answer is a 404, a ZIP archive of one PDF per row, or one PDF.
  Stylesheets and other resources are served only through the `file:///`
  pseudo-scheme.
- **Program v2 denormalisation**. A program carries several cached
  fields, all derived from its dimension values and schedule items:
  - the dimension map (`cached_dimensions`);
  - the localised location (`cached_location`), which is also copied onto
    every schedule item of the program;
  - the colour (`cached_color`);
  - the earliest start and the latest end.

  Each can be refreshed for one program or for a queryset processed in
  batches of 100.
- **Request middleware**. The page-wizard clearing decision, and the
  resolution of `request.event` and `request.organization` from the
  resolved URL's keyword arguments, where an event slug takes precedence.
- **Form language fallback**. `get_form` of global surveys, event surveys
  and offer forms: the same code three times. `get_combined_fields` puts
  the base-language form first, and `EventSurvey.__str__` gives the
  display name.
- **Job categories**:
  - the comma-separated listing;
  - the qualification check;
  - the `title` alias of `name`;
  - slug defaulting on save;
  - the dictionary `as_dict` exports to the roster API.
- **Program v2 event meta**. Importer selection, the auto-import flag, and
  the width of the `importer_name` field.

Modelling choices:

- **Values.** Entities that are passed around as values (file versions,
  rows, forms, dimension values, events) are datatypes.
- **Classes.** Objects whose fields the code reassigns in place are classes
  whose methods state their whole new state: `Program`, `ScheduleItem`,
  the middleware's `Request` and `JobCategory`.
- **Dictionaries.** A Python dict is an insertion-ordered list of entries
  (`OrderedDicts`). A key keeps the position of its first insertion and the
  value of its last, so "last write wins" and the iteration order of
  `vfs.values()` both hold.
- **Foreign code** is a set of uninterpreted functions, bundled in an
  `Engines` value:
  - Jinja rendering of a template or of the title pattern;
  - `make_name` and `make_lut`;
  - WeasyPrint's HTML-to-PDF conversion;
  - the `NameFactory`.
- **Files.** The scratch directory is a map from path to content. Each
  compile stage returns the files it wrote.
- **Database.** These are parameters: the database tables (`Event`,
  `Organization`, schedule items), a form's language versions, a person's
  qualifications, the event's dimensions and `settings.LANGUAGES`.
- **Django `.get`.** It fails with `DoesNotExist` or
  `MultipleObjectsReturned`. `get_form` catches only the first.

## Model

| member | source | states |
|---|---|---|
| RendererFiles.FilesToVfs | backend/emprinten/renderer.py:50-51 | `files_to_vfs`: the dict comprehension over (file name, version) pairs. What it holds is stated by `FilesToVfsLastWins`. |
| RendererFiles.FilesToVfsLastWins | backend/emprinten/renderer.py:50-51 | A name is in the virtual file set iff some version has it, and it maps to the LAST version with that name. The keys are the distinct names in first-occurrence order, none twice. |
| RendererFiles.FindMain | backend/emprinten/renderer.py:54-58 | None iff no version is Main-typed; otherwise the result is a Main-typed version with no Main-typed version before it. |
| RendererFiles.FindLookupTables | backend/emprinten/renderer.py:61-66 | `find_lookup_tables`: the dict comprehension over the CSV-typed versions. What it holds is stated by `FindLookupTablesLastWins`. |
| RendererFiles.OfTypeConcat | backend/emprinten/renderer.py:61-66 | The type filter keeps input order: filtering a concatenation gives the filtered parts, concatenated. This makes "last" in `FindLookupTablesLastWins` mean last in input order. |
| RendererFiles.OfTypeSingle | backend/emprinten/renderer.py:61-66 | A single version is kept iff it has the filtered type. |
| RendererFiles.FindLookupTablesLastWins | backend/emprinten/renderer.py:61-66 | A key is present iff some CSV-typed version's `make_name` gives it, and it maps to `make_lut` of the last such version. Non-CSV versions contribute nothing. |
| OrderedDicts.FromPairsKeys | backend/emprinten/renderer.py:50-51 | A dict comprehension's keys are the distinct keys of its pairs, in order of first occurrence, with no key twice. |
| OrderedDicts.FromPairsGet | backend/emprinten/renderer.py:61-66 | In a dict comprehension a key is absent iff no pair has it, and its value is that of its last pair. |
| TemplateCompiler.DoLookup | backend/emprinten/renderer.py:218-235 | The loader gives None iff the name is not in the virtual file set or its file is CSV-typed. Otherwise it gives (the file's data, the name, always up to date). |
| TemplateCompiler.MainTemplateLoads | backend/emprinten/renderer.py:182-186 | With distinct file names, the Main file `find_main` picks is always served by the template loader. |
| TemplateCompiler.HtmlHeader | backend/emprinten/renderer.py:30-36 | `html_header(title, lang)`: the fixed doctype and head with the language and title filled in. `HeaderTitleRoundTrip` states that the title reads back. |
| TemplateCompiler.HtmlFooter | backend/emprinten/renderer.py:39-40 | `html_footer()`: the closing `</html>` between newlines. |
| TemplateCompiler.HeaderTitleRoundTrip | backend/emprinten/renderer.py:30-36 | The title written into `html_header` can be read back from the header unchanged. |
| TemplateCompiler.MergedRow | backend/emprinten/renderer.py:204 | The merged source carries a row iff the data set has exactly one row, and then it is that row. |
| TemplateCompiler.MergedTitle | backend/emprinten/renderer.py:205 | The merged document's title is "" when the data set is empty. |
| TemplateCompiler.Renderings | backend/emprinten/renderer.py:212-213 | The merged body holds one rendering per row, in row order, each rendering that row. |
| TemplateCompiler.Compile | backend/emprinten/renderer.py:182-215 | Fails with "template not found" iff the loader cannot serve the Main file. Otherwise it fails with the `row` keyword clash (`TypeError`) iff there is a row and a lookup table named `row`. Otherwise split mode gives the split result, and merged mode gives exactly one source, `master.html`, with the merged row and the header, renderings and footer. |
| TemplateCompiler.RowClashIff | backend/emprinten/renderer.py:200 | `tpl.render(row=row_copy, **lookups)` passes `row` twice exactly when there is a row and some CSV file of the set gets the lookup name `row`. |
| TemplateCompiler.CompileSplit | backend/emprinten/renderer.py:190-201 | N rows give N sources in row order: source i is `src/{i+1:03d}.html` paired with row i. Each file holds the header with that row's title, the row's rendering and the footer. The written files are exactly those. |
| TemplateCompiler.CompileMerged | backend/emprinten/renderer.py:202-214 | Exactly one source, `src/master.html`, paired with the merged row. The only file written holds the merged title's header, every row rendered in order, and the footer. |
| TemplateCompiler.RowPathsDistinct | backend/emprinten/renderer.py:195 | The numbered source paths of a split compile are pairwise distinct, so no row's HTML overwrites another's. |
| TemplateCompiler.SplitSources | backend/emprinten/renderer.py:195-196 | The split source list pairs path i with row i, one entry per row. |
| Strings.Format03Value | backend/emprinten/renderer.py:195 | `{n:03d}` reads back as the number n. |
| Strings.Format03Injective | backend/emprinten/renderer.py:195 | Different numbers give different `{n:03d}` strings. |
| Strings.Format03Width | backend/emprinten/renderer.py:195 | Below 1000, `{n:03d}` is exactly three characters. |
| Strings.RemovePrefix | backend/emprinten/renderer.py:277 | `str.removeprefix`: when the prefix is there, prefix + result is the input; otherwise the input is returned unchanged. |
| Paths.BasenameOfJoin | backend/emprinten/renderer.py:134 | The basename of `os.path.join(dir, name)` is name, for a name without '/'. |
| Paths.PathJoinInjective | backend/emprinten/renderer.py:195 | Joining one directory with two different slash-free names gives two different paths. |
| Paths.SplitextRootOfName | backend/emprinten/renderer.py:266 | `os.path.splitext` of `stem.ext` gives back stem, for a stem with no dot or slash. |
| Paths.NumberedPathsDistinct | backend/emprinten/renderer.py:195 | Different row numbers give different numbered paths in one directory. |
| HtmlCompiler.FindStylesheets | backend/emprinten/renderer.py:243-245 | The stylesheets are exactly the CSS-typed versions. |
| HtmlCompiler.FindStylesheetsInOrder | backend/emprinten/renderer.py:243-245 | The stylesheets keep the order of the versions: those of a concatenation are the parts' stylesheets, concatenated, and a single version is a stylesheet iff it is CSS-typed. This order is the cascade order WeasyPrint is given. |
| HtmlCompiler.SheetData | backend/emprinten/renderer.py:248-255 | One parsed stylesheet per stylesheet file, in order, each from that file's data. |
| HtmlCompiler.CompilePdfs | backend/emprinten/renderer.py:247-272 | Fails, naming the first missing file, iff some source was not written. Otherwise there is one result per source, with the same order and row, at `result/<source stem>.pdf`. Each result file holds the PDF of its source's HTML with the stylesheets. |
| HtmlCompiler.StemResultPath | backend/emprinten/renderer.py:266-267 | A source `dir/stem.html` becomes the result `result/stem.pdf`. |
| HtmlCompiler.SplitResultPath | backend/emprinten/renderer.py:266-267 | The split source `{i:03d}.html` becomes the result `{i:03d}.pdf`. |
| HtmlCompiler.MasterResultPath | backend/emprinten/renderer.py:266-267 | The merged source `master.html` becomes the result `master.pdf`. |
| HtmlCompiler.FetchResource | backend/emprinten/renderer.py:276-290 | The fetcher rejects the URL as invalid iff it lacks the `file:///` prefix. Without the prefix it fails with "not found" iff the rest is not in the virtual file set. Otherwise it serves that file's data, with the stripped path as the redirected URL. |
| HtmlCompiler.FetchByName | backend/emprinten/renderer.py:276-290 | Fetching `file:///name` serves exactly the file `name` of the virtual file set, and fails when there is none. |
| Renderer.NameTemplate | backend/emprinten/renderer.py:127 | A name template exists iff a non-empty file-name pattern was given, and then it is that pattern. |
| Renderer.WriteArchive | backend/emprinten/renderer.py:130-135 | One archive entry per result, in order, each holding that result's PDF. Entries are named by the name factory for the result's row, falling back to the PDF's basename. |
| Renderer.SingleDocumentResponse | backend/emprinten/renderer.py:141-154 | The non-archive answer: 401 iff there are several results, 201 iff there are none, and otherwise the one PDF. That PDF is named by the name factory for its row, falling back to "result.pdf". |
| Renderer.SplitPdfs | backend/emprinten/renderer.py:257-270 | After a split compile, result i carries row i, has basename `{i+1:03d}.pdf` and holds the PDF of row i's own document. |
| Renderer.MergedPdf | backend/emprinten/renderer.py:141-152 | After a merged compile there is exactly one result, carrying the merged row and holding the PDF of the master document. |
| Renderer.RenderPdf | backend/emprinten/renderer.py:79-154 | No Main file gives 404 "Main file not found". A Main file the loader cannot serve fails with "template not found". A lookup table named `row` fails with the keyword clash whenever there is a row. Otherwise archive mode gives one entry per row, in row order, named after the row with fallback `{i:03d}.pdf`. Non-archive mode always gives the one merged PDF with fallback name "result.pdf", so the 401 and 201 answers are unreachable. |
| Renderer.RenderArchive | backend/emprinten/renderer.py:124-140 | After a split compile, the archive holds one entry per row, in row order. Each entry is named after its row, falling back to `{i:03d}.pdf`, and holds the PDF of that row's own document. |
| Renderer.RenderSingle | backend/emprinten/renderer.py:124-154 | After a merged compile, the answer is the one PDF of the merged document. It is named after the merged row, falling back to "result.pdf". |
| Batching.Batches | backend/program_v2/models/program.py:141-151 | Every batch is non-empty and holds at most the batch size; all but the last hold exactly the batch size. |
| Batching.FlattenBatches | backend/program_v2/models/program.py:141-151 | Concatenating the batches gives back the queryset, so each program is processed exactly once, in order. |
| Programs.ExpectedDimensions | backend/program_v2/models/program.py:85-94 | The dimension map `_build_dimensions` produces, as a value. `ExpectedDimensionsUnique` states what it holds, and `BuildDimensions` is proved to produce it. |
| Programs.ExpectedDimensionsUnique | backend/program_v2/models/program.py:91-93 | The dimension map keys exactly the event's dimension slugs, each listing its values' slugs in value order. Any map with that property equals it. |
| Programs.EmptyListsDict | backend/program_v2/models/program.py:91 | The initial map has exactly the event's dimension slugs as keys, each with an empty list. |
| Programs.BuildDimensions | backend/program_v2/models/program.py:85-94 | Fails with `KeyError` iff some dimension value's dimension is not one of the event's, naming the first such value. Otherwise each value slug is appended to its dimension's list, in iteration order. |
| Programs.DimensionKey | backend/program_v2/models/program.py:93 | In a dimension map a slug has a list iff it is one of the event's dimensions, which is the `KeyError` condition. |
| Programs.LocationsMeaning | backend/program_v2/models/program.py:97-106 | A language is present iff some location dimension value has a non-empty title in it. Its set is exactly those titles, duplicates collapsed. No language maps to an empty set. |
| Programs.DropEmpty | backend/program_v2/models/program.py:108 | Dropping languages without titles changes nothing once no set is empty. |
| Programs.LocationOf | backend/program_v2/models/program.py:96-108 | The location map `_build_location` computes once the meta is present: `{}` without a location dimension, otherwise the location dimension's title sets. `LocationsMeaning` states what those hold. |
| Programs.BuildLocation | backend/program_v2/models/program.py:96-108 | Fails with `TypeError` iff the event has no program v2 meta. Without a location dimension the result is `{}`. Otherwise it is the per-language title sets of the location dimension's values. |
| Programs.FirstColor | backend/program_v2/models/program.py:110-116 | "" iff no dimension value has a colour; otherwise the colour of the first value that has one. |
| Programs.EarliestStart | backend/program_v2/models/program.py:183-185 | None iff there are no schedule items; otherwise the value is some item's start time and no item starts earlier. |
| Programs.LatestEnd | backend/program_v2/models/program.py:184-186 | None iff there are no schedule items; otherwise the value is some item's end time and no item ends later. |
| Programs.ItemsOf | backend/program_v2/models/program.py:68 | The program's schedule items are exactly the items of the table that point to it. |
| Programs.ItemsOfAll | backend/program_v2/models/program.py:163 | `filter(program__in=queryset)`: exactly the items whose program is in the queryset. |
| Programs.SetCachedLocation | backend/program_v2/models/program.py:127-131 | Every listed schedule item gets the given location. |
| Programs.Program.AssignCachedDimensions | backend/program_v2/models/program.py:118-123 | Succeeds iff every dimension value is an event dimension and the event has its meta. Then the dimension map, location and colour are the freshly built ones. A `KeyError` changes nothing; a `TypeError` leaves only the new dimension map. The cached times are untouched. |
| Programs.Program.RefreshCachedDimensions | backend/program_v2/models/program.py:118-131 | As above, and on success every schedule item of the program carries the program's new location. Items of other programs, and every item on failure, keep theirs. |
| Programs.Program.RefreshCachedTimes | backend/program_v2/models/program.py:179-189 | The cached earliest start and latest end are the minimum start and maximum end over the program's schedule items, or None without items. The other cached fields are untouched. |
| Programs.Program.RefreshCachedFields | backend/program_v2/models/program.py:76-78 | Dimensions first, then times. On success all cached fields are fresh. A failure in the dimension step leaves the times as they were. |
| Programs.AssignBatch | backend/program_v2/models/program.py:153-158 | One batch: succeeds iff every program in it is refreshable, and then each has a fresh dimension map, location and colour. |
| Programs.AssignPrograms | backend/program_v2/models/program.py:141-159 | Over all batches: succeeds iff every program is refreshable, and then every program's dimension fields are fresh. |
| Programs.CopyBatch | backend/program_v2/models/program.py:171-175 | One batch: every schedule item gets its own program's cached location. |
| Programs.CopyLocations | backend/program_v2/models/program.py:161-175 | Every schedule item of a queryset program gets its program's location; other items keep theirs. |
| Programs.RefreshCachedDimensionsQs | backend/program_v2/models/program.py:136-177 | Succeeds iff every program is refreshable. Then every program's dimension fields are fresh, and every schedule item of a queryset program carries its program's location. Items of other programs, and all items on failure, keep theirs. |
| Programs.TimesBatch | backend/program_v2/models/program.py:205-213 | One batch: every program in it gets the earliest start and latest end of its own schedule items. |
| Programs.RefreshCachedTimesQs | backend/program_v2/models/program.py:191-215 | Every program in the queryset gets the earliest start and latest end of its own schedule items, and its dimension fields are untouched. |
| Programs.RefreshCachedFieldsQs | backend/program_v2/models/program.py:80-83 | Dimensions for the queryset, then times. Succeeds iff every program is refreshable, and then all cached fields are fresh; on failure the times are untouched. |
| Middleware.ShouldClearAsWritten | backend/core/middleware.py:30-39 | The decision as the code reads. It is false without a "related" session entry, for any method but GET, and on a related path. Past those guards it is true iff the path is under a never-blow prefix. |
| Middleware.AsWrittenInverted | backend/core/middleware.py:4-10 | As written, a GET of a sign-up confirmation link during a wizard clears the wizard, while a GET of an unrelated page does not. |
| Middleware.ShouldClearPageWizard | backend/core/middleware.py:30-39 | The decision the prefix list and the docstring describe. It is true iff there is a wizard, the method is GET, the path is not related and the path is not under a never-blow prefix. |
| Middleware.CorrectedIsNegation | backend/core/middleware.py:39 | Past the three guards, the corrected decision is the negation of the written one. |
| Middleware.NeverBlowKeepsWizard | backend/core/middleware.py:4-10 | A path under `/desuprofile/confirm/`, `/oauth2/` or `/oidc/` never clears the wizard. |
| Middleware.Request.PageWizardProcessView | backend/core/middleware.py:41-43 | The wizard is cleared once exactly when the decision says so, and nothing else changes. |
| Middleware.FirstBySlug | backend/core/middleware.py:63-67 | `filter(slug=slug).first()`, used for both events and organisations: None iff no row has the slug; otherwise the first row that has it. |
| Middleware.Request.EventOrganizationProcessView | backend/core/middleware.py:57-67 | Without a resolved URL both attributes are None. A truthy `event_slug` decides alone: the first event with it and that event's organisation, or both None when there is no such event. Only without it does a truthy `organization_slug` give the first organisation with that slug. The wizard is untouched. |
| Surveys.GetByLanguage | forms/models/survey.py:100 | `languages.get(language=...)` fails with `DoesNotExist` iff no form has the language, and with `MultipleObjectsReturned` iff several have it. With exactly one it succeeds with that form. A success is a form in that language, and every form in that language is that one. |
| Surveys.FormsIn | forms/models/survey.py:100 | The forms filtered by language are exactly the forms in that language. |
| Surveys.NoFormsIn | forms/models/survey.py:100 | A language no form has filters to no forms. |
| Surveys.SingleFormIn | forms/models/survey.py:100 | A language only the form at position i has filters to exactly that form. |
| Surveys.TwoFormsIn | forms/models/survey.py:100 | A language two forms have filters to at least two forms. |
| Surveys.Fallback | forms/models/survey.py:104-114 | The loop over `settings.LANGUAGES` from a position on. It skips the requested language and returns the lookup of the first language that has a form, so a `MultipleObjectsReturned` propagates. It ends with `DoesNotExist`. `FallbackFirstHit` states this as a contract. |
| Surveys.FallbackFirstHit | forms/models/survey.py:104-112 | The loop over the configured languages from any position on, skipping the requested one, fails with `DoesNotExist` iff none of those languages has a form. Otherwise it is the lookup for the first of them that has one. |
| Surveys.GetForm | forms/models/survey.py:98-114 | The requested language's lookup when a form has that language; otherwise the fallback loop. |
| Surveys.GetFormRequested | forms/models/survey.py:98-100 | When exactly one form has the requested language, `get_form` returns that form. |
| Surveys.GetFormRequestedTwice | forms/models/survey.py:98-100 | When two forms have the requested language, `get_form` fails with `MultipleObjectsReturned` and does not fall back. |
| Surveys.GetFormFirstFallback | program_v2/models/offer_form.py:36-52 | Suppose no form has the requested language. Suppose also that configured language k is the first, other than the requested one, to have a form, and it has exactly one. Then `get_form` returns that form. |
| Surveys.GetFormDoesNotExist | forms/models/survey.py:140-156 | `get_form` fails with `DoesNotExist` iff neither the requested language nor any configured language has a form. |
| Surveys.GetFormLanguage | program_v2/models/offer_form.py:36-52 | A returned form is one of the versions, and its language is the requested one or a configured one. |
| Surveys.GetFormFallsBack | program_v2/models/offer_form.py:42-50 | Without a form in the requested language, a returned form belongs to the first configured language, other than the requested one, that has a form. |
| Surveys.SortByNotBase | forms/models/survey.py:74-77 | `sorted(..., key=lambda form: form.language != base)` as a stable insertion sort. `SortIsStablePartition`, `SortByNotBasePermutes` and `SortByNotBaseOrder` state what it gives. |
| Surveys.SortIsStablePartition | forms/models/survey.py:74-77 | Sorting by `language != base` gives the base-language forms in their order, followed by all other forms in their order. |
| Surveys.SortByNotBasePermutes | forms/models/survey.py:74-77 | The sort is a permutation of the forms. |
| Surveys.SortByNotBaseOrder | forms/models/survey.py:74-77 | No base-language form comes after a form in another language. |
| Surveys.EventSurveyName | forms/models/survey.py:167-168 | `EventSurvey.__str__`: the event slug, "/", then the survey slug. |
| Surveys.EventSurveyNameSplits | forms/models/survey.py:167-168 | For an event slug without '/', the display name splits back at its first '/' into the event slug and the survey slug. |
| Surveys.EventSurveyNameInjective | forms/models/survey.py:167-168 | Two surveys of events whose slugs hold no '/' share a display name only when they have the same event slug and survey slug. |
| JobCategories.FormatJobCategories | labour/models/job_category.py:12-13 | `format_job_categories`: the names joined with ", ". `FormatJobCategoriesReadsBack` states that they read back. |
| JobCategories.FormatJobCategoriesReadsBack | labour/models/job_category.py:12-13 | The listing of a non-empty list of categories whose names hold no comma splits back into their names in input order. |
| JobCategories.SplitJoin | labour/models/job_category.py:13 | Joining comma-free names with ", " and splitting at the commas gives the names back. |
| JobCategories.SplitListingCons | labour/models/job_category.py:13 | Reading a listing takes a comma-free first name, then ", ", then the rest. |
| JobCategories.NamesOf | labour/models/job_category.py:13 | One name per category, in input order. |
| JobCategories.AllHeld | labour/models/job_category.py:80 | True iff every required qualification is among the person's. |
| JobCategories.IsPersonQualified | labour/models/job_category.py:74-80 | Qualified when nothing is required; in general qualified iff every required qualification is among the person's. |
| JobCategories.JobCategory.Title | labour/models/job_category.py:94-96 | The `title` property is the name. |
| JobCategories.JobCategory.SetTitle | labour/models/job_category.py:94-99 | After setting the title both `title` and `name` read the new title; the slug is unchanged. |
| JobCategories.JobCategory.Save | labour/models/job_category.py:130-132 | The slug becomes the slugified name only when there is a name and no slug; the name is unchanged. |
| JobCategories.DefaultSlug | labour/models/job_category.py:130-132 | The slug `save` leaves: the slugified name when there is a name and no slug, otherwise the slug. |
| JobCategories.DefaultSlugStable | labour/models/job_category.py:131-132 | An existing slug is never changed, a name without a slug gets the slugified name, and saving twice gives the slug of saving once. |
| JobCategories.JobCategory.AsDict | labour/models/job_category.py:144-162 | Fails with the assertion message iff shifts are asked for without jobs. Otherwise the document is built by successive insertions: title, slug, then jobs, requirements and allocated, and people, by their flags. |
| JobCategories.ExpectedDocKeys | labour/models/job_category.py:147-162 | `title` and `slug` always come first. `jobs` is present iff jobs are asked for, `requirements` and `allocated` iff requirements are, and `people` iff people are. No key occurs twice. |
| JobCategories.ExpectedDocJobs | labour/models/job_category.py:152-153 | With jobs asked for, the `jobs` entry is the job list built with the shifts flag. |
| JobCategories.JobCategory.AsRosterApiDict | labour/models/job_category.py:164-165 | Never trips the assertion. The keys are title, slug, jobs and people, and the jobs include their shifts. |
| ProgramMeta.MaxKeyLength | backend/program_v2/models/meta.py:47 | No choice key is longer than the result, and some key has exactly that length. |
| ProgramMeta.ImporterNameWidth | backend/program_v2/models/meta.py:8-11 | The field width is 14, the length of "solmukohta2024", and every choice key fits in it. |
| ProgramMeta.ImporterFor | backend/program_v2/models/meta.py:59-68 | The Solmukohta 2024 importer iff the name is "solmukohta2024"; the default importer for every other name. |
| ProgramMeta.IsAutoImportingFromV1 | backend/program_v2/models/meta.py:70-72 | Auto-importing iff the importer name is non-empty. |
| ProgramMeta.ChoicesAutoImport | backend/program_v2/models/meta.py:70-72 | Every stored choice, "default" included, turns auto-import on. "default" and the blank name select the same importer, and only the blank name leaves auto-import off. |

## Left out

- Jinja2 and WeasyPrint are uninterpreted functions:
  - template and title rendering, including the sandbox, autoescaping, the custom filters and the `lorem` global;
  - HTML and CSS parsing, and `write_pdf`.

  How WeasyPrint calls the URL fetcher is therefore not modelled. Nor are the fetcher's `timeout` and `ssl_context` parameters, or the exceptions WeasyPrint swallows.
- `make_name`, `make_lut` and `NameFactory.make` are uninterpreted functions, because they are defined in files that are not part of this model.
- `make_temp_dir`, `os.mkdir`, `zipfile` and `FileResponse` are left out; only what they hold is modelled:
  - the scratch directory is a path parameter;
  - written files are maps from path to content;
  - the archive is its list of entries;
  - the responses are a datatype without content types or open file handles.
- Reading a file version's data as text or bytes is the identity on its content; encodings are not modelled.
- The `DEBUG` printing and `ls_r` are left out; they are diagnostics only.
- TemplateCompiler.Compile, Renderer.RenderPdf: the Jinja calls `get_template`, `from_string` and `render` are taken to succeed. Template syntax errors, undefined-variable errors and sandbox security errors are not modelled; the `row` keyword clash is the only rendering failure modelled.
- Renderer.WriteArchive: requires that every result PDF is on the scratch disk, which `RenderArchive` proves before calling it; the source would fail inside `zipfile` otherwise.
- The ORM is left out, and related rows are sequences and object references:
  - `save`, `bulk_update` and `update`;
  - `select_for_update`, `only` and `select_related`;
  - `transaction.atomic`.

  Locking and rollback are database concurrency, which the model does not cover. A queryset refresh that fails part-way leaves the earlier programs' in-memory fields updated, as the objects would be; the database rollback is not modelled.
- Programs.BuildLocation, Programs.LocationOf: the final `", ".join(locations)` of each language's set is not modelled, because Python's set iteration order is unspecified. The model keeps each language's set of titles.
- Programs.FirstColor: the sequence of dimension values stands for the primary-key order that `exclude(...).first()` uses on an unordered queryset.
- Dimensions are identified by their slug, a database row by its object; `filter(dimension=location_dimension)` is a comparison of slugs.
- A schedule item's `cached_end_time` is always present (an integer), and times are integers.
- The logging calls and the `page` counters of the queryset loops are left out.
- `import_program_from_v1` is left out. It calls `meta.importer_class`, which the event meta does not define (its property is `importer`), and it is importer plumbing only.
- `get_calendar_export_link` is left out: it only builds a URL with Django's `reverse`.
- The importer functions themselves are only named (`Importer`), because their modules are not part of this model.
- ProgramMeta.MaxKeyLength: gives 0 for an empty list of choices, where Python's `max` raises `ValueError`. Only the two-entry choice list is ever passed to it.
- Middleware.Request.PageWizardProcessView: follows the corrected decision `ShouldClearPageWizard`, not the code as written; the written decision is modelled and exhibited separately (see Findings).
- `page_wizard_clear` is counted (`pageWizardClears`), not modelled: its effect on the session lives in `core/page_wizard`, which is not part of this model. The session's "related" entry is a parameter of the request.
- `AbstractSurvey.is_active` is left out: it only delegates to `is_within_period`, which is not part of this model.
- `merge_fields` is left out: it is not part of this model. Only the ordering `get_combined_fields` hands it is modelled.
- `GlobalSurvey.__str__` and the `responses` properties are left out: the first is the slug itself, the second a database query.
- `settings.LANGUAGES` is a sequence of language codes; the labels are dropped.
- The job category's `group` property, `get_or_create_dummy(ies)` and the RecipientGroup update in `save` are left out: they are database queries and test fixtures.
- `_make_requirements`, `_make_allocated`, `_make_people` and `Job.as_dict` are left out: they are defined in code that is not part of this model. Their lists are the `DocValue` constructors.
- `pick_attrs(self, 'title', 'slug')` is taken to insert `title` and then `slug`; `slugify` is a function parameter.
- JobCategories.IsPersonQualified: qualifications are compared as values, as the ORM compares model instances by primary key.

## Findings

| source | as written | input that shows it | evidently intended | confidence | as-written member | corrected member |
|---|---|---|---|---|---|---|
| backend/core/middleware.py:39 | Past the guards, `_should_clear_page_wizard` returns `any(path.startswith(prefix) ...)`. The wizard is then cleared only on the never-blow paths, and on no other page. | An active wizard with related `["/signup/"]`: a GET of `/desuprofile/confirm/abc` clears it, and a GET of `/events/` does not. | `not any(...)`: clear on a non-related GET unless the path is under a never-blow prefix, as the list's name, its comment and the class docstring say. | not executed | Middleware.ShouldClearAsWritten (exhibited by Middleware.AsWrittenInverted) | Middleware.ShouldClearPageWizard |
