# Job-market reference data and imports, in Dafny

This project models the batch side of a Django job-market application: the management
commands that fill the reference tables and import the domain records. It also models two
pieces of per-record logic, `Vacancy.save` and `Speciality.get_full_path`. Every database
table is a map from its unique key to a record, or a set where the key is not unique.
Every CSV file is a sequence of rows that are already split.

Each command becomes three things:
- a reference definition: the effect of one row, folded over the rows in file order;
- methods over a store class that holds the tables; their loop invariants tie the store to
  that definition;
- lemmas proved about the definition.

A row whose database work raises an exception is named by its index in a `faulty` set, the
way the command's `except` branch sees it. "Now" is always a parameter.

The commands and entities modelled:
- `load_kp` (modules `KpCodes`, `PositionData`, `KpLoader`). The Classification of
  Professions is loaded in two passes over the same rows. The first pass files the
  dot-free codes as Section, Subsection, Class and Subclass, under a parent derived from
  the code's digits. The second pass files the dotted codes as Positions under the Group
  named by the text before the dot. It first promotes a Subclass of that code to a Group
  (and deletes the Subclass) when the Group does not exist.
- `load_job_titles` (`JobTitleLoader`). It cleans the cells, then upserts one job title per
  (code, name) pair. The title links to the finest KP node with its code: a Position,
  else a Group, else a Subclass.
- `load_catottg` (`LocationData`, `CatottgLoader`). The administrative geography is loaded
  in five category passes, root to leaf, each finding parents by code one level up.
- `load_kved` (`KvedData`, `KvedLoader`). It normalises the header keys, classifies each
  row by its most specific non-empty code column, and needs the parent to exist.
- `load_speciality` (`SpecialityModel`, `SpecialityLoader`). It splits two cells of each
  row at their first space and links each speciality to the knowledge field named by its
  code's first two characters. The run is one transaction.
- `Speciality.get_full_path` and the code-format validators (`SpecialityModel`).
- `Vacancy.save` (`VacancyModel`): the generation follows the parent, and the closing time
  follows the status.
- `cleanup_vacancies` (`VacancyCleanup`): a bulk deactivation that does not go through
  `save`.
- `import_vacancies` (`VacancyParsing` and `VacancyImport`). It checks the required cells,
  resolves the employer, job title and place (with the city-district fallback),
  normalises the salary and parses dates. It then runs `update_or_create` by `external_id`,
  with `save`, and keeps three counters.
- `import_employers` (`EmployerImport`). It resolves the owner once, resolves the optional
  KVED class and place, and upserts by `tax_id`.
- `load_dictionaries` (`DictionarySeed`): four get-or-create seeding loops over fixed lists.

## Model

| member | source | states |
|---|---|---|
| Common.StripIsInfix | position/management/commands/load_kp.py:107-108 | `str.strip()` returns the input with a run of white space (in Python's sense, no-break space included) cut from each end and nothing else changed, and leaves no white space at either end |
| Common.StripEmptyIff | position/management/commands/load_kp.py:110 | a cell strips to the empty text exactly when all its characters are white space |
| Common.DigitsOnlyAppend | position/management/commands/load_kp.py:17 | the digit filter of a concatenation is the concatenation of the parts' digits, so it keeps the input's digits in order and drops the rest |
| Common.DigitsOnlySnoc | position/management/commands/load_kp.py:17 | one more character at the end adds itself to the filtered digits when it is a digit and nothing otherwise |
| Common.BeforeFirst | position/management/commands/load_kp.py:43 | `split('.')[0]` is a dot-free prefix of the code that ends just before its first dot |
| Common.SplitFirst | speciality/management/commands/load_speciality.py:49-51 | `split(' ', 1)` gives two parts exactly when the separator occurs; the parts rejoined around it give the text back, and the first part has no separator |
| Common.Take | speciality/management/commands/load_speciality.py:66 | the slice `[:2]` is a prefix of length min(2, length) |
| Common.RemoveCharSnoc | position/management/commands/load_job_titles.py:55 | `replace(c, '')` drops one more character at the end when it is `c` and keeps it otherwise, so every other character stays, in order and as often as it occurs |
| Common.StripThenRemove | position/management/commands/load_job_titles.py:53-55 | stripping a cell and then removing a white-space character `c` gives the cell with a run of white space cut from each end and every `c` removed, with no white space at either end and no `c` |
| Common.RemoveSpaceKeepsStripped | position/management/commands/load_job_titles.py:53-55 | removing no-break spaces from a stripped cell leaves it stripped |
| Common.GetOrCreate | position/management/commands/load_kp.py:122-125 | `get_or_create` adds the key when missing, returns an existing row untouched, and changes no other row |
| KpCodes.LevelDependsOnlyOnDigitCount | position/management/commands/load_kp.py:12-31 | two dot-free codes with the same number of digits have the same level |
| KpCodes.NoLevelIffNoDigits | position/management/commands/load_kp.py:14-31 | a code has no level exactly when it has no dot and no digit |
| KpCodes.LevelOfDigitCode | position/management/commands/load_kp.py:17-29 | an all-digit code has the level its length names: 1 section, 2 subsection, 3 class, 4 subclass, 5 or more group, 0 none |
| KpCodes.ParentIsOneLevelUp | position/management/commands/load_kp.py:20-59 | for an all-digit subsection, class or subclass code, the parent code is its first 1, 2 or 3 digits, and that parent code's level is the one directly above |
| KpCodes.PositionParentIsPrefix | position/management/commands/load_kp.py:14-61 | a dotted code is a position whose parent code is the text before its first dot; the section and group levels have no parent code |
| PositionData.PositionStore.constructor | position/models.py:4-142 | the store starts with every KP table and the job-title table empty |
| KpLoader.Pass1Row | position/management/commands/load_kp.py:107-192 | one row of pass one changes the store and counters exactly as its reference step does |
| KpLoader.Pass2Row | position/management/commands/load_kp.py:203-254 | one row of pass two changes the store and counters exactly as its reference step does, the Subclass-to-Group promotion included |
| KpLoader.RunPass1 | position/management/commands/load_kp.py:100-192 | the first loop leaves the tables and counters of pass one over all rows in file order |
| KpLoader.RunPass2 | position/management/commands/load_kp.py:194-254 | the second loop leaves the tables and counters of pass two, run on the tables pass one produced |
| KpLoader.LoadKp | position/management/commands/load_kp.py:75-254 | `handle` on rows already read: both passes, one set of counters |
| KpLoader.Pass1SkipsLowerCodes | position/management/commands/load_kp.py:110-118 | a row with an empty name, a dotted code, a code with no level, or a group-level code of 5 or more digits changes nothing and counts nothing in pass one, even when its database work would raise |
| KpLoader.MissingParentIsOneError | position/management/commands/load_kp.py:128-188 | a subsection or subclass row whose derived parent is missing creates nothing and counts exactly one error |
| KpLoader.ClassRowAttachment | position/management/commands/load_kp.py:145-171 | every class row, whatever other characters its code holds, joins the subsection named by the first two digits of its code and that subsection's section; without that subsection it goes straight under the section named by the first digit; with neither it is one error; the code is filed as written, and an existing class keeps its row |
| KpLoader.ExistingCodeKeptButCounted | position/management/commands/load_kp.py:121-182 | a code already in its level's table changes no table, because `get_or_create` never updates; the row still counts: in its level's counter when its parent is found (always for a section, by the one- or three-digit prefix for a subsection or subclass, by the subsection or else the section prefix for a class), as one error when it is not |
| KpLoader.FaultyRowIsOneError | position/management/commands/load_kp.py:190-254 | a pass-one row that raises counts one error and changes no table; a pass-two row that raises counts one error and files no position, and when no promotion preceded the raise it changes no table and counts nothing else |
| KpLoader.FaultAfterPromotionKeepsGroup | position/management/commands/load_kp.py:224-254 | a position write that raises after its Subclass was promoted leaves the new Group and the deleted Subclass as they are, and the counters move by groups +1, subclasses −1, errors +1 |
| KpLoader.PositionUnderExistingGroup | position/management/commands/load_kp.py:217-244 | a position whose Group exists adds exactly its Position under that Group and one to `positions`, and changes nothing else |
| KpLoader.OrphanPositionIsOneError | position/management/commands/load_kp.py:217-250 | a position with nothing before its dot, or whose prefix names neither a Group nor a Subclass, is one error and changes nothing |
| KpLoader.PromotionStep | position/management/commands/load_kp.py:217-244 | a position whose parent code has a Subclass but no Group creates a Group with the Subclass's name and class and deletes the Subclass; the position is filed under that Group; the counters move by groups +1, subclasses −1, positions +1 |
| KpLoader.Pass1OnlyAdds | position/management/commands/load_kp.py:100-192 | pass one only inserts into the four upper tables; existing rows keep their name and parent; groups, positions and job titles are untouched |
| KpLoader.Pass1Consistent | position/management/commands/load_kp.py:128-188 | pass one keeps every parent reference valid, and a class under a subsection carries that subsection's section |
| KpLoader.Pass2OnlyPromotes | position/management/commands/load_kp.py:217-250 | pass two leaves the upper three tables alone; it only adds groups and positions; a Subclass it removes became a new Group; the Subclasses it keeps are unchanged |
| KpLoader.Pass2Consistent | position/management/commands/load_kp.py:217-250 | pass two keeps the references valid, and every Position lies in the Group named by its code's text before the dot |
| KpLoader.RunConsistent | position/management/commands/load_kp.py:100-254 | the whole command keeps both invariants |
| KpLoader.Pass2KeepsSubclassWithoutPositions | position/management/commands/load_kp.py:221-236 | a Subclass no dotted code asks for survives pass two unchanged |
| KpLoader.PromotionProgress | position/management/commands/load_kp.py:221-236 | once promoted, a Subclass stays a Group with its name and class for the rest of the pass |
| KpLoader.Pass2PromotesAskedSubclass | position/management/commands/load_kp.py:217-236 | a Subclass without a Group of its code, asked for by a dotted code, ends as a Group with its name and class and the Subclass is gone, even when that row's position write raises |
| KpLoader.Pass1FilesSubclass | position/management/commands/load_kp.py:173-182 | a 4-digit code row whose 3-digit class exists leaves a Subclass of that code after pass one |
| KpLoader.RerunLeavesSubclassAndGroup | position/management/commands/load_kp.py:173-236 | a promoted Subclass is re-created by pass one of a second run, and pass two then finds the Group and deletes nothing, so after two runs the code is both a Subclass and a Group |
| JobTitleLoader.CleanCellMeaning | position/management/commands/load_job_titles.py:53-63 | a cleaned cell is the cell with a run of white space cut from each end and every no-break space removed, with no white space at either end and no no-break space |
| JobTitleLoader.ParsedRowIsClean | position/management/commands/load_job_titles.py:50-66 | a row kept by the skip rules has a non-empty, stripped, no-break-space-free code and name; the code is not the header "КОД КП"; the other cells carry no no-break space |
| JobTitleLoader.LinkIsFinestMatch | position/management/commands/load_job_titles.py:69-77 | at most one link is set: the Position when one has the code, else the Group, else the Subclass, else none |
| JobTitleLoader.TitleRowStep | position/management/commands/load_job_titles.py:49-98 | one row in the store, as its reference step |
| JobTitleLoader.LoadJobTitles | position/management/commands/load_job_titles.py:38-98 | `handle` after the header line: the store and both counters are those of the fold over the data rows |
| JobTitleLoader.LoadUpserts | position/management/commands/load_job_titles.py:81-92 | the load adds exactly the keys of the rows that do not raise; keeps every other title; never writes a KP table; keeps the keys clean |
| JobTitleLoader.LastWriterWins | position/management/commands/load_job_titles.py:81-92 | a repeated (code, name) ends as one title holding the values of the last of its rows that did not raise |
| JobTitleLoader.CountsAddUp | position/management/commands/load_job_titles.py:80-98 | each row that reaches the upsert adds one to exactly one of `count` and `errors`, and `errors` is the number of those rows whose write raises |
| LocationData.ResolveSettlement | vacancy/management/commands/import_vacancies.py:77-81 | the place is the Settlement with the code, else the settlement of the CityDistrict with the code, else none; in consistent tables it is a Settlement |
| LocationData.GeoStore.constructor | location/models.py:3-106 | the store starts with the five location tables empty |
| CatottgLoader.FileRow | location/management/commands/load_catottg.py:53-116 | one row of a pass in the store, as its reference step |
| CatottgLoader.RunPass | location/management/commands/load_catottg.py:49-117 | one pass over all rows, as the fold of its steps |
| CatottgLoader.LoadCatottg | location/management/commands/load_catottg.py:33-120 | the five passes run in the order [O, K], [P], [H], [M, T, C, X], [B]; the per-pass counts are reported, and `total_created` is their sum |
| CatottgLoader.PassOfCategory | location/management/commands/load_catottg.py:33-39 | each category belongs to exactly one pass, the one that handles its level |
| CatottgLoader.RegionRow | location/management/commands/load_catottg.py:64-69 | a region row creates the Region under its first-level code with its own name and category, with no parent lookup |
| CatottgLoader.FileEffect | location/management/commands/load_catottg.py:71-111 | a row of a level below regions adds its code exactly when a row with its parent-level code exists one level up; a record it creates holds the row's name (and category, for regions and settlements) and the row's parent-level code; no other table and no existing row changes; references stay valid |
| CatottgLoader.MissingParentStillCounted | location/management/commands/load_catottg.py:75-113 | a row whose parent is missing creates nothing, yet it is counted |
| CatottgLoader.PassKeys | location/management/commands/load_catottg.py:52-113 | a pass adds to its own level exactly the codes of its categories' rows, among those that do not raise, whose parent exists; it touches nothing else |
| CatottgLoader.PassConsistent | location/management/commands/load_catottg.py:71-111 | a pass keeps every parent reference valid |
| CatottgLoader.PassCountsRows | location/management/commands/load_catottg.py:52-116 | a pass counts exactly its categories' rows that do not raise, whether their parent exists or not |
| CatottgLoader.RunKeys | location/management/commands/load_catottg.py:33-111 | after the run, each level holds a closed form that depends only on the set of rows that do not raise, not on their order |
| CatottgLoader.OrderIndependent | location/management/commands/load_catottg.py:33-111 | two files whose rows that do not raise form the same set end with the same codes at every level: a child finds its parent wherever the parent's row stands |
| CatottgLoader.RunConsistent | location/management/commands/load_catottg.py:49-111 | the run keeps every parent reference valid |
| CatottgLoader.RerunChangesNothing | location/management/commands/load_catottg.py:66-111 | a rerun over the same rows, or any subset of the rows that did not raise, leaves every table exactly as the first run left it |
| KvedData.KvedStore.constructor | kved/models.py:4-53 | the store starts with the four KVED tables empty |
| KvedLoader.CleanKeyMeaning | kved/management/commands/load_kved.py:59 | a cleaned header key is the key with a run of white space cut from each end and every line break removed, with no white space at either end and no line break |
| KvedLoader.NormalizedKeys | kved/management/commands/load_kved.py:59 | a normalised row has exactly the cleaned non-empty keys; empty keys are dropped |
| KvedLoader.NormalizedLastWins | kved/management/commands/load_kved.py:59 | under a cleaned key lies the value of the last column whose key cleans to it |
| KvedLoader.NormalizeRows | kved/management/commands/load_kved.py:57-60 | the first loop normalises every row, in file order |
| KvedLoader.KvedRowStep | kved/management/commands/load_kved.py:69-137 | one row in the store, as its reference step |
| KvedLoader.FileRows | kved/management/commands/load_kved.py:65-137 | the second loop leaves the tables and `stats` of the fold over the normalised rows |
| KvedLoader.LoadKved | kved/management/commands/load_kved.py:48-137 | `handle` on the raw rows: both loops |
| KvedLoader.KindIsMostSpecific | kved/management/commands/load_kved.py:83-133 | a row's kind is its most specific non-empty code column, in the order class, group, division, section, each case an if-and-only-if |
| KvedLoader.NoCodeRowIsIgnored | kved/management/commands/load_kved.py:83-133 | a row with all four code columns empty changes no table and no counter |
| KvedLoader.FaultyRowIsOneError | kved/management/commands/load_kved.py:135-137 | a coded row that raises adds one error and changes no table |
| KvedLoader.FileKvedEffect | kved/management/commands/load_kved.py:83-133 | a class, group or division is filed when its parent exists under the row's own parent column, and its counter goes up by one even for an existing code; a new record holds the row's name and that parent code, an existing one is kept; otherwise it is one error and nothing is created; a section needs no parent; no row is modified; references stay valid |
| KvedLoader.LoadGrowsConsistently | kved/management/commands/load_kved.py:65-137 | the load never updates or deletes and keeps every parent reference valid |
| KvedLoader.CountersAddUp | kved/management/commands/load_kved.py:65-137 | every coded row is counted exactly once, in its level's counter or in the errors |
| SpecialityModel.SpecialityStore.constructor | speciality/models.py:5-62 | the store starts with both tables empty |
| SpecialityModel.FullPathShapes | speciality/models.py:64-69 | the path is "field / name" without a parent and "field / parent / name" with one |
| SpecialityModel.FullPathEnds | speciality/models.py:64-69 | the path always begins with the field's name and ends with the speciality's own name, each set off by " / " |
| SpecialityModel.ValidSpecialityPrefix | speciality/models.py:10-37 | every code the speciality validator accepts (3 to 10 digits, one trailing line break included) begins with a valid knowledge-field code (2 digits) |
| SpecialityModel.TrailingLineBreakAccepted | speciality/models.py:10-37 | for any text without a line break, the `^…$` validators accept it, and accept it followed by one line break, exactly when it is two digits (field code) or three to ten digits (speciality code) |
| SpecialityLoader.Cell | speciality/management/commands/load_speciality.py:43-51 | a cell gives (code, name) exactly when its stripped text has a space; the code is the text before the first space, the name the rest |
| SpecialityLoader.FileFieldCell | speciality/management/commands/load_speciality.py:47-56 | the knowledge-field half of a row in the store, as its reference |
| SpecialityLoader.FileSpecCell | speciality/management/commands/load_speciality.py:59-81 | the speciality half of a row in the store, and whether it found its field |
| SpecialityLoader.ProcessRow | speciality/management/commands/load_speciality.py:39-81 | one row in the store; a row that raises ends the run |
| SpecialityLoader.LoadSpeciality | speciality/management/commands/load_speciality.py:15-83 | `handle` with the transaction: the committed tables, or the old ones with no counts after an error |
| SpecialityLoader.ShortRowSkipped | speciality/management/commands/load_speciality.py:40-41 | a row with fewer than two columns changes nothing |
| SpecialityLoader.CellWithoutSpaceIgnored | speciality/management/commands/load_speciality.py:47-63 | a cell with no space, non-empty or not, is ignored on its own: the row then does only its other half, and with neither cell having a space the row changes nothing |
| SpecialityLoader.MissingFieldSkipsSpeciality | speciality/management/commands/load_speciality.py:66-81 | a speciality whose 2-character prefix names no field is not created and not counted, and the run goes on |
| SpecialityLoader.SameRowFieldServesSpeciality | speciality/management/commands/load_speciality.py:47-79 | the field in column 0 exists before column 1 is read, so a speciality with that prefix in the same row is created and counted |
| SpecialityLoader.CommittedKeepsLinked | speciality/management/commands/load_speciality.py:66-78 | every speciality has level 1, no parent, and sits under the field its code's first two characters name; rows are only added |
| SpecialityLoader.AllOrNothing | speciality/management/commands/load_speciality.py:24-33 | if any row's database work raises, both tables end exactly as they began |
| SpecialityLoader.FieldsPresent | speciality/management/commands/load_speciality.py:47-56 | without an error, every knowledge field the file names is present afterwards |
| SpecialityLoader.FormatsNotEnforced | speciality/models.py:10-37 | the loader does not run the validators: it files a field "ab" and a speciality "ab7", which they reject |
| VacancyModel.SaveGeneration | vacancy/models.py:157-165 | with a parent the generation is the parent's plus one; without one it is left as it was, so it is not reset |
| VacancyModel.SaveClosedAt | vacancy/models.py:167-171 | after `save` the closing time is empty exactly when the status is "active"; a closed vacancy keeps its closing time, or gets "now" when it has none |
| VacancyModel.SaveFrame | vacancy/models.py:162-173 | `save` changes no field but the generation, the closing time and `updated_at` |
| VacancyModel.SaveIdempotent | vacancy/models.py:162-173 | saving again at the same moment with the same parent changes nothing more |
| VacancyModel.ChainGenerationIsDepth | vacancy/models.py:157-165 | a chain saved root first, with the root at its default generation 1, gives the k-th vacancy generation k |
| VacancyModel.VacancyStore.Save | vacancy/models.py:162-173 | `save` reads the parent's stored generation, applies the rule and writes the row back; nothing else changes |
| VacancyModel.VacancyStore.SaveExisting | vacancy/models.py:162-173 | the `save` that `update_or_create` runs on an existing row: the closing time and `updated_at` that `save` computes are written, the stored generation is kept, and nothing else changes |
| VacancyModel.VacancyStore.constructor | vacancy/models.py:157-160 | the tables start empty, with the key invariant |
| VacancyCleanup.Cleanup | vacancy/management/commands/cleanup_vacancies.py:10-30 | the count reported is the number of matches before the update, and the table becomes the deactivated one |
| VacancyCleanup.DeactivatesExactlyMatches | vacancy/management/commands/cleanup_vacancies.py:14-24 | exactly the matches end inactive; no other field of any row changes, status and closing time included |
| VacancyCleanup.SecondRunMatchesNothing | vacancy/management/commands/cleanup_vacancies.py:14-21 | a second run at the same "now" matches nothing and leaves the table as it is |
| VacancyCleanup.RecentStaysActive | vacancy/management/commands/cleanup_vacancies.py:14-17 | an active vacancy created at or after the threshold is left as it is |
| VacancyParsing.Padded | vacancy/management/commands/import_vacancies.py:103 | a number written with a fixed width is that many digits |
| VacancyParsing.PaddedValue | vacancy/management/commands/import_vacancies.py:103 | reading back a padded number that fits gives the number |
| VacancyParsing.ValuePadded | vacancy/management/commands/import_vacancies.py:103 | padding the value of a digit string to its own width gives the string back |
| VacancyParsing.ParseInt | vacancy/management/commands/import_vacancies.py:94-95 | `int()` on a stripped text succeeds exactly on digits with an optional sign |
| VacancyParsing.ParseIntValue | vacancy/management/commands/import_vacancies.py:94-95 | the value of an accepted text is its digits' value, negated after a minus sign |
| VacancyParsing.ParseIntOfDecimal | vacancy/management/commands/import_vacancies.py:94-95 | any integer written in decimal, with a minus sign when negative, reads back as itself |
| VacancyParsing.SalaryCases | vacancy/management/commands/import_vacancies.py:93-97 | a blank max gives none; a blank min copies the max; a value that does not parse clears both |
| VacancyParsing.ParseDate | vacancy/management/commands/import_vacancies.py:100-106 | `parse_date` yields only days the calendar has |
| VacancyParsing.ParseFields | vacancy/management/commands/import_vacancies.py:100-106 | day, month and year fields of 1-2, 1-2 and 4 digits joined by dots parse to that day, or to nothing when the calendar lacks it |
| VacancyParsing.ParseFormatRoundTrip | vacancy/management/commands/import_vacancies.py:100-106 | a valid day written DD.MM.YYYY parses back to itself |
| VacancyParsing.FormatParseRoundTrip | vacancy/management/commands/import_vacancies.py:100-106 | a 10-character text that parses is the day it parses to, written DD.MM.YYYY |
| VacancyParsing.ParseDateRejectsMalformed | vacancy/management/commands/import_vacancies.py:100-106 | only a text of the form day.month.year (1-2, 1-2 and 4 digits joined by dots) parses to a day; any other text, the blank one included, parses to nothing |
| VacancyParsing.ParseDateRejectsMissingDay | vacancy/management/commands/import_vacancies.py:100-106 | a day past the end of its month (30 February, 31 April) parses to nothing |
| VacancyImport.FindExternal | vacancy/management/commands/import_vacancies.py:113-114 | the lookup by `external_id` finds a row exactly when one holds it, and the one found holds it |
| VacancyImport.FoundIsUnique | vacancy/management/commands/import_vacancies.py:113-114 | under the unique constraint the row found is the only one holding that `external_id` |
| VacancyImport.Apply | vacancy/management/commands/import_vacancies.py:113-131 | an update sets exactly the defaults and keeps every other field: `external_id`, status, `is_active`, `closed_at`, parent, generation, `created_at` and `updated_at` |
| VacancyImport.NewRecord | vacancy/models.py:136-160 | a new row holds the defaults under its `external_id`, with the model's defaults: status "active", `is_active` true, no closing time, no parent, generation 1, `created_at` and `updated_at` now |
| VacancyImport.UpsertRecord | vacancy/management/commands/import_vacancies.py:113-135 | the upsert with `save` keeps `external_id` unique and every key below the next one; the row under the found key, or the next key for a new row, holds the values, `updated_at` now, its closing time empty exactly when active; an updated row keeps status, visibility, parent, `created_at` and its stored generation (the `update_fields` save); a new row has the defaults |
| VacancyImport.AcceptedRowSaved | vacancy/models.py:157-173 | an accepted row leaves one row with its `external_id`, written through `save`: `updated_at` now, closing time empty exactly when active, the stored generation kept on update and 1 for a new row, status, visibility, parent and `created_at` kept on update and defaulted on create |
| VacancyImport.ImportRow | vacancy/management/commands/import_vacancies.py:44-138 | one row in the store, as its reference step |
| VacancyImport.ImportRows | vacancy/management/commands/import_vacancies.py:43-138 | the row loop leaves the table and the three counters of the fold |
| VacancyImport.ImportVacancies | vacancy/management/commands/import_vacancies.py:27-138 | the "dsz" source is looked up or created, then every row is imported |
| VacancyImport.MissingFieldIsError | vacancy/management/commands/import_vacancies.py:57-60 | a row lacking the tax id, position code or location code is one error and changes nothing |
| VacancyImport.UnknownReferenceIsError | vacancy/management/commands/import_vacancies.py:63-86 | an unknown employer, job title or place is one error and changes nothing |
| VacancyImport.ValuesResolve | vacancy/management/commands/import_vacancies.py:57-130 | a row has values exactly when its three references resolve; the place follows the city-district fallback; the title is the job title's name, as is a blank description; a missing publication day gives "now"; the salary follows the salary rule; the source is "dsz" |
| VacancyImport.StepWrites | vacancy/management/commands/import_vacancies.py:112-138 | an accepted row leaves a row with its `external_id` holding its values, counted as updated when one existed and as created otherwise; a refused row is one error and changes nothing |
| VacancyImport.StepKeepsOther | vacancy/management/commands/import_vacancies.py:113-131 | a step leaves the row of every other `external_id` where and as it was |
| VacancyImport.CountsAddUp | vacancy/management/commands/import_vacancies.py:57-138 | each row adds one to exactly one of the created, updated and error counters |
| VacancyImport.LastWriterWins | vacancy/management/commands/import_vacancies.py:113-131 | rows sharing an `external_id`, the empty one included, end as one row holding the values of the last of them that was accepted |
| EmployerImport.Written | employer/management/commands/import_employers.py:72-81 | `update_or_create` sets exactly name, owner, KVED, location and address, and keeps the other fields of an existing employer |
| EmployerImport.ImportRow | employer/management/commands/import_employers.py:40-88 | one row in the store, as its reference step |
| EmployerImport.ImportEmployers | employer/management/commands/import_employers.py:26-88 | without a user for the owner's email nothing changes and nothing is reported; otherwise the table and counters are those of the row loop |
| EmployerImport.MissingOwnerStops | employer/management/commands/import_employers.py:26-30 | a missing owner stops the command before any row |
| EmployerImport.MissingFieldIsError | employer/management/commands/import_employers.py:46-49 | a row without a tax id or a name is one error and changes nothing |
| EmployerImport.RowIsWritten | employer/management/commands/import_employers.py:52-85 | a row with a tax id and a name is written whatever its KVED code and place; the KVED is set exactly when given and known; the place is the settlement, else the city district's settlement, else none; it counts as updated exactly when the tax id existed; no other employer changes |
| EmployerImport.OneOwner | employer/management/commands/import_employers.py:20-76 | every employer the run writes has the run's owner; all others are as they were |
| EmployerImport.CountsAddUp | employer/management/commands/import_employers.py:46-88 | each row adds one to exactly one counter |
| EmployerImport.LastWriterWins | employer/management/commands/import_employers.py:72-81 | the employer under a tax id holds the values of the last row with that tax id that was written |
| DictionarySeed.DictionaryTable.constructor | dictionary/models.py:4-49 | a table starts empty |
| DictionarySeed.Seeded | dictionary/management/commands/load_dictionaries.py:19-20 | after a seeding loop every listed name is in the table |
| DictionarySeed.Seed | dictionary/management/commands/load_dictionaries.py:19-22 | one `enumerate` loop: the table becomes the seeded one, and the names reported as created are those of the reference |
| DictionarySeed.LoadDictionaries | dictionary/management/commands/load_dictionaries.py:9-69 | the four tables are seeded from the command's four lists |
| DictionarySeed.SeededKeepsAndAdds | dictionary/management/commands/load_dictionaries.py:19-67 | the table ends with its old names plus the listed ones, and every entry present before is unchanged, order included |
| DictionarySeed.NewNameGetsItsIndex | dictionary/management/commands/load_dictionaries.py:19-20 | a name that was missing gets the index of its first occurrence in the list as its order |
| DictionarySeed.CreatedExactlyNew | dictionary/management/commands/load_dictionaries.py:20-22 | a name is reported as created exactly when it is listed and was missing |
| DictionarySeed.SecondRunChangesNothing | dictionary/management/commands/load_dictionaries.py:19-22 | a second run changes nothing and creates nothing |
| DictionarySeed.FreshTablesGetListOrder | dictionary/management/commands/load_dictionaries.py:11-67 | no list repeats a name, so on empty tables every entry's order is its index in the list |

## Left out

- Reading and tokenising the CSV files is not modelled; rows come in already split. This covers the BOM, the existence checks, the second `open` of the KVED file and every stdout message. These are I/O.
- The database is local maps, not the ORM. There are no database-level length limits, no `choices` checks and no locking. Each row's generic exception is an index in `faulty`. The failure can therefore hit any row, not just one the database would refuse.
- KpLoader.Pass2Step: the `on_delete=CASCADE` of `JobTitle.subclass` (position/models.py:172-178) is not modelled. When pass two deletes a promoted Subclass (load_kp.py:236), the database also deletes every job title linked to it; the model keeps the job-title table as it was (`Pass2Grows` states `r.jobTitles == t.jobTitles`). If a vacancy refers to one of those job titles, its `on_delete=PROTECT` (vacancy/models.py:71-73) makes the delete raise instead; that is the raise inside `subclass.delete()` named on the Pass2Step line below. This differs from the source only when job titles were loaded before the KP file is loaded again. No other modelled command deletes a row.
- A row with fewer cells than the header is not modelled. `csv.DictReader` fills the missing cells with `None`, and the `.strip()` on them raises `AttributeError` outside every `try` (load_kp.py:107-108 and 203-204, load_kved.py:69-75, import_vacancies.py:44-55, import_employers.py:40-44). The command then stops, and the rows before it stay written. In the model every row has every cell.
- VacancyImport.UpsertRecord: the update follows Django 4.2 and later, where `update_or_create` saves an existing row with `update_fields`. These are the keys of `defaults` plus the date and time fields, so only `closed_at` and `updated_at` of `save`'s work are stored, and the stored generation is kept (`UpdateSave`). Before Django 4.2 the full `save` also stored the generation recomputed from the parent; the model does not cover that older behaviour.
- `str.isdigit`, the `\d` of the validators and `int()` are taken over ASCII digits only. Python also accepts other Unicode digits.
- VacancyParsing.ParseInt: does not accept surrounding white space or `_` separators inside the digits, unlike `int()`; the cells are stripped first, so only the separators are lost.
- VacancyParsing.ParseDate: does not accept the one-digit day with a leading space (" 5.01.2024") that `strptime`'s `%d` allows; it takes the day, month and year strictly as 1-2, 1-2 and 4 ASCII digits.
- The time zone conversion (`make_aware`) is not modelled. A parsed day becomes the marker `OnDay(day)`, and the instant "now" is an integer. The source reads `timezone.now()` for each row and again in every `save` (`closed_at`, and `auto_now` for `updated_at`); the model uses one instant for the whole run.
- `name__iexact` in the vacancy import is modelled as an exact name match; the model has no case folding.
- `JobTitle.objects.filter(code=).first()` in the vacancy import is a parameter map from code to name. Which title Django's ordering returns first is not computed.
- Duplicate Positions of one code are a set, so the model does not say which of them `first()` links a job title to; the link holds the code. A duplicate (code, name) job-title pair already in the database, which would make `update_or_create` raise, cannot arise in the map.
- Pass2Step: a pass-two row that raises is taken to raise at its Position write, the last database call of the row, so a promotion before it stays done. A raise inside `Group.objects.get_or_create` or `subclass.delete()` is not modelled separately: the first would change nothing, the second would leave the new Group while the Subclass also remains.
- `position_parents` in the KP loader is written and never read; it is not modelled.
- `EmploymentType.objects.first()` and `EducationLevel.objects.first()` are parameters, as is the set of KVED class codes the employer import looks up.
- The owner lookup `User.objects.get(email=…)` is a map from email to user key. `MultipleObjectsReturned` for a shared email, which the command does not catch, is not modelled.
- The `tax_id` validator is not modelled, because `update_or_create` does not run validators. A tax id longer than the column is one of the `faulty` rows.
- The employer fields the import never writes are not modelled: description, website, logo, staff, `created_at`, `updated_at`. The new-row defaults of the fields it keeps are: `brand_name` "", `employer_type` "LEGAL", `is_verified` false.
- These vacancy fields are not modelled: requirements, responsibilities, currency, address, `expires_at`, speciality, KVED and tags. The import never writes them, and `save` ignores them.
- Settlement latitude and longitude are not modelled. They are floats, and no modelled command reads them.
- The `__str__` methods, `core/utils.py`'s `upload_to`, views, URLs, admin and forms are display or framework wiring.
- The contact-disclosure rule is not modelled: the views it names are not in the repository.
