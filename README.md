# aws-scheduler: the template registry and the deployer

This project models the two classes that make up aws-scheduler, with proofs
about them.

`Template` (cloud_scheduler/template.py) is the template registry. It reads
YAML template files into an index from name to record that keeps insertion
order. Each document is validated against the layer schema and against its
kind's spec schema. The sentinel name `random` is replaced by the base64 of
the file path followed by the document's position. The registry answers
queries by kind, category, tags and meta. It also keeps, per kind, a parser,
a worker and options, plus a cache of parsed items.

`Scheduler` (cloud_scheduler/scheduler.py) is the deployer. It takes the
`glue` and `cloudwatch` templates, drops those that a snapshot of the last
deployment holds with the same name and spec, and deploys each one in order:

- A glue template becomes a Glue database plus a crawler.
- A cloudwatch template becomes a Lambda permission and an Events rule with
  its target. When the template is marked `deleted`, the target and the rule
  are removed instead.

It also builds glue templates from the Semi Replicator's targets.

Modules:

- `Values` (values.dfy): the parsed document value, records, and the index
  with its Python-dict order. It also holds the exceptions, as an `Error`
  datatype, and the `Result`/`Outcome` wrappers that carry them.
- `Naming` (naming.dfy): `str(n)`, UTF-8 encoding and standard padded base64
  (section 4 of RFC 4648). Generated names are proved distinct within one
  file by proving both encodings injective.
- `Casing` (casing.dfy): the scheduler's `make_snake` (two regular-expression
  substitutions, written as scans) and `to_camel_case`.
- `Templates` (template.dfy): loading as a fold over documents and files, the
  query, the path helper, the kind table and the item cache. The class
  `Template` updates its fields in place; each of its methods is proved equal
  to those functions.
- `Scheduling` (scheduler.dfy): the remote services are a parameter, a
  function from the calls made so far and the next call to its reply. Each
  deploy procedure is a function returning how it ended and the calls it
  made. The class `Scheduler` runs the loops, and its methods are proved
  equal to those functions.

Some behaviour of the code that a reader might not expect, which the model keeps:

- `deploy_all` stops at the first template whose deployment raises. The
  templates after it are not deployed.
- `load` writes each document into the index as soon as it passes its checks.
  A failure later in the same file leaves the earlier documents indexed;
  nothing is rolled back.
- The `load_once` shortcut of `_load_item` tests the cached entry's
  truthiness. That entry is the item dictionary `{kind, name, value}`, which
  is never empty, so the shortcut is taken whenever the item is cached and
  the kind is `load_once`, whatever the parsed value is.
- `put_cloudwatch_event` names the rule after `FunctionName` when deleting,
  but after the template's `name` when creating. When the two differ,
  deleting removes a rule other than the one created. The model reproduces
  this (`Scheduling.DeleteMissesCreatedRule`).
- Generated names are unique within one file but not across files. For a
  digit d, the file `p` followed by d, at position d, gets the same name as
  the file `p` at position 11·d (`Naming.RandomNamesCollideAcrossFiles`).

## Model

| member | source | states |
|---|---|---|
| Values.Truthy | cloud_scheduler/template.py:252 | definition of Python truthiness on parsed values: `None`, `False`, `0`, the empty string, list and dictionary are false, everything else true; `Templates.LoadOnce` and `Templates.LoadSeparately` test options with it |
| Values.Lookup | cloud_scheduler/scheduler.py:94-97 | `v[key]` succeeds exactly when `v` is a dictionary holding the key, and then yields that entry; otherwise a KeyError on a dictionary or a TypeError on anything else |
| Values.Index.Put | cloud_scheduler/template.py:79-88 | assigning `templates[name]` keeps the index well formed, maps `name` to the record, appends a new name at the end of the iteration order and leaves an existing name in its place |
| Values.Index.Records | cloud_scheduler/template.py:143-145 | iterating the dictionary yields one record per name, in insertion order |
| Naming.ParseDecimalString | cloud_scheduler/template.py:54 | `str(index)` is a decimal numeral that reads back as `index` |
| Naming.Utf8RoundTrip | cloud_scheduler/template.py:54 | UTF-8 encoding of the path and position decodes back to the same text, so `.encode()` loses nothing |
| Naming.EncodeCharDecodes | cloud_scheduler/template.py:54 | every character's UTF-8 sequence has the length its lead byte announces and decodes to that character |
| Naming.Sextets | cloud_scheduler/template.py:54 | base64 cuts the bytes into 6-bit groups: none for no bytes, 2 for one, 3 for two, at least 4 for more |
| Naming.Base64Encode | cloud_scheduler/template.py:54 | the encoding of non-empty bytes is non-empty |
| Naming.SextetsInjective | cloud_scheduler/template.py:54 | different byte strings give different 6-bit group sequences |
| Naming.Base64Injective | cloud_scheduler/template.py:54 | different byte strings give different base64 text (padding included) |
| Templates.ResolvedName | cloud_scheduler/template.py:51-55 | definition of the name a document is indexed under: the generated name when the document is named `random`, its own name otherwise; `Templates.RandomDocumentIndexed` and `Templates.LoadedFileNamesIndexed` state how it is used |
| Naming.RandomName | cloud_scheduler/template.py:53-55 | definition: the base64 text of the UTF-8 bytes of the path followed by the position in decimal; its properties are the lemmas below |
| Naming.RandomNameShape | cloud_scheduler/template.py:53-55 | a generated name is never empty and never the sentinel `random` itself |
| Naming.RandomNamesDistinct | cloud_scheduler/template.py:53-55 | two documents of the same file at different positions get different generated names |
| Naming.RandomNamesCollideAcrossFiles | cloud_scheduler/template.py:53-55 | documents of two different files can get the same generated name |
| Casing.Lower | cloud_scheduler/scheduler.py:72 | `.lower()` keeps the length and lowers each character |
| Casing.SplitBeforeWords | cloud_scheduler/scheduler.py:71 | definition of the first substitution of `make_snake`, as a left-to-right scan that resumes after each capitalised word; `Casing.SplitBeforeWordsSeparates`, `Casing.SplitBeforeWordsOnlyAddsUnderscores` and `Casing.SplitBeforeWordsKeepsLowerCase` state its effect |
| Casing.SplitBeforeWordsStart | cloud_scheduler/scheduler.py:71 | the first substitution never shortens the text, keeps its first character, and its second character is the inserted `_` or the input's second one |
| Casing.SplitBeforeWordsSeparates | cloud_scheduler/scheduler.py:71 | after the first substitution, every capital followed by a lower-case letter is preceded by `_`, a newline (which `.` does not match) or the lower-case end of the word matched just before it |
| Casing.SplitBeforeWordsOnlyAddsUnderscores | cloud_scheduler/scheduler.py:71 | the first substitution only inserts underscores: removing all underscores from its result gives the input with its underscores removed |
| Casing.SplitBeforeWordsKeepsLowerCase | cloud_scheduler/scheduler.py:71 | a text without capital letters is left unchanged by the first substitution |
| Casing.SplitAfterLowers | cloud_scheduler/scheduler.py:72 | definition of the second substitution of `make_snake`, as a left-to-right scan that resumes after each capital it splits off; `Casing.SplitAfterLowersSeparates`, `Casing.SplitAfterLowersOnlyAddsUnderscores` and `Casing.SplitAfterLowersKeepsLowerCase` state its effect |
| Casing.SplitAfterLowersSeparates | cloud_scheduler/scheduler.py:72 | after the second substitution, no lower-case letter or digit is directly followed by a capital |
| Casing.SplitAfterLowersOnlyAddsUnderscores | cloud_scheduler/scheduler.py:72 | the second substitution only inserts underscores |
| Casing.SplitAfterLowersKeepsLowerCase | cloud_scheduler/scheduler.py:72 | a text without capital letters is left unchanged by the second substitution |
| Casing.MakeSnake | cloud_scheduler/scheduler.py:70-72 | `make_snake` leaves no upper-case letter |
| Casing.MakeSnakeOnlyInsertsUnderscores | cloud_scheduler/scheduler.py:70-72 | apart from the underscores it inserts, `make_snake` only lowers the name's letters |
| Casing.MakeSnakeFixesLowerCase | cloud_scheduler/scheduler.py:70-72 | a name with no upper-case letter comes back unchanged |
| Casing.MakeSnakeIdempotent | cloud_scheduler/scheduler.py:70-72 | applying `make_snake` twice gives what applying it once gives |
| Casing.MakeSnakeExamples | cloud_scheduler/scheduler.py:70-72 | `make_snake("aB")` is `a_b` and `make_snake("xHi")` is `x_hi`: each substitution inserts its underscore |
| Casing.Split | cloud_scheduler/scheduler.py:195 | `split('_')` gives at least one part, no part contains `_`, and the first part is the text up to the first `_` |
| Casing.JoinSplit | cloud_scheduler/scheduler.py:195 | joining the parts of `split` with the separator gives back the text |
| Casing.SplitJoin | cloud_scheduler/scheduler.py:195 | splitting parts joined by the separator, none of which holds it, gives the parts back |
| Casing.TitleFrom | cloud_scheduler/scheduler.py:196 | `str.title()` scanning from a given state keeps the length; `Casing.TitleFromCases`, `Casing.TitleFromOnlyChangesCase` and `Casing.TitleFromNoUnderscore` state the rest |
| Casing.TitleFromCases | cloud_scheduler/scheduler.py:196 | each character of `title()`'s result is the upper-cased input character when the one before it (or, at the start, the given state) is not a letter, and the lower-cased one otherwise |
| Casing.Title | cloud_scheduler/scheduler.py:196 | definition of `str.title()`: a letter is upper-cased after a non-letter (or at the start) and lower-cased after a letter |
| Casing.TitleFromOnlyChangesCase | cloud_scheduler/scheduler.py:196 | `title()` changes only the case of letters: lower-casing its result gives the lower-cased input |
| Casing.TitleFromNoUnderscore | cloud_scheduler/scheduler.py:196 | `title()` of a text without `_` has no `_` |
| Casing.ToCamelCase | cloud_scheduler/scheduler.py:194-196 | the camel-case name has no underscore and starts with the first part unchanged |
| Casing.ToCamelCaseOnlyDropsUnderscores | cloud_scheduler/scheduler.py:194-196 | up to case, the camel-case name is the snake name without its underscores |
| Casing.ToCamelCaseJoined | cloud_scheduler/scheduler.py:194-196 | for parts without `_` joined by `_`, the camel-case name is the first part followed by each later part title-cased |
| Casing.ToCamelCaseExample | cloud_scheduler/scheduler.py:194-196 | `to_camel_case("ab_cd")` is `abCd` |
| Templates.LoadDocument | cloud_scheduler/template.py:45-88 | definition of one iteration of `load`: layer schema, duplicate-name check unless updating, the remaining checks, the write; `Templates.LoadDocumentEffect` states its effect |
| Templates.Admit | cloud_scheduler/template.py:64-88 | a document becomes a record exactly when its kind, resolved name and category are non-empty, its meta is a dictionary, its kind has a spec schema and the spec passes it; the record is stored under the resolved name, carries the validated spec, keeps the document's kind, category, tags and meta and the file path, and marks a generated name |
| Templates.Template.AdmitDocument | cloud_scheduler/template.py:64-88 | the checks run one after the other, returning the first error, and the result is the one `Admit` specifies |
| Templates.LoadFrom | cloud_scheduler/template.py:42-88 | loading keeps the index well formed, and every record in an index of admitted records stays admissible |
| Templates.LoadAllFrom | cloud_scheduler/template.py:116-121 | loading every file keeps the same two invariants |
| Templates.LoadDocumentEffect | cloud_scheduler/template.py:45-88 | one successful document has passed every check and is written under its resolved name, which without `update` was not indexed before |
| Templates.LoadStopsAtFailingDocument | cloud_scheduler/template.py:42-88 | a failed load is the successful load of a prefix of the documents followed by one document that raises; what the prefix indexed stays |
| Templates.LoadWithoutUpdateKeepsRecords | cloud_scheduler/template.py:61-62 | without `update`, loading never overwrites or reorders a record already indexed, whether it succeeds or not |
| Templates.DuplicateDocumentRejected | cloud_scheduler/template.py:61-62 | without `update`, a document that passes the layer schema and whose resolved name is already indexed raises "name already exists" for that name |
| Templates.NameExistsAt | cloud_scheduler/template.py:61-62 | a load without `update` whose documents before `j` all succeed, reaching document `j` with its name already indexed and the layer schema passed, raises "name already exists" for that name |
| Templates.DuplicateNameStopsLoad | cloud_scheduler/template.py:61-62 | without `update`, a document whose name is already indexed makes the load raise, and the indexed record stays as it was |
| Templates.DuplicateNameRejected | cloud_scheduler/template.py:61-62 | without `update`, a document whose name is already indexed makes the load raise, and the indexed record stays as it was; when the documents before it load and it passes the layer schema, the exception is "name already exists" for its name |
| Templates.RepeatedNameStopsLoad | cloud_scheduler/template.py:61-62 | without `update`, two documents of one file with the same explicit name make the load raise |
| Templates.RepeatedNameReached | cloud_scheduler/template.py:61-62 | when the documents before the second of two equally named documents load and it passes the layer schema, the load raises "name already exists" for that name |
| Templates.RepeatedNameRejected | cloud_scheduler/template.py:61-62 | without `update`, two documents of one file with the same explicit name make the load raise; when the documents before the second load and it passes the layer schema, the exception is "name already exists" for that name |
| Templates.LoadAllRejectsRepeatedNames | cloud_scheduler/template.py:116-121 | two documents in different files with the same explicit name make loading all files raise |
| Templates.LoadLeavesOtherNames | cloud_scheduler/template.py:79 | a name that no loaded document resolves to is neither added nor changed |
| Templates.LoadedFileIsIndexed | cloud_scheduler/template.py:79-88 | after a successful load, each document that no later document overwrites is indexed as the record it was admitted as |
| Templates.LoadedFileNamesIndexed | cloud_scheduler/template.py:79-88 | after a successful load without `update`, every document's resolved name is indexed |
| Templates.LoadAcceptsAdmittedDocuments | cloud_scheduler/template.py:42-88 | when every document passes the layer schema and the other checks, their names differ and (without `update`) none is indexed yet, the load succeeds and indexes each as the record it was admitted as |
| Templates.RandomDocumentIndexed | cloud_scheduler/template.py:53-55 | a `random` document is indexed under the name generated from its path and position, marked as generated, keeping the sentinel in its document and its path |
| Templates.Matches | cloud_scheduler/template.py:146-161 | definition of `find`'s criteria: an empty kind, no category, no meta and no tags match everything; otherwise the kind and category must be equal and the meta and tags must pass the utility module's matchers; `Templates.SelectExactly` states how `find` uses it |
| Templates.Select | cloud_scheduler/template.py:140-165 | definition of `find`'s filter over the records in order; `Templates.SelectExactly` states what it keeps |
| Templates.SelectExactly | cloud_scheduler/template.py:140-165 | `find` returns exactly the records meeting every given criterion, in iteration order |
| Templates.SelectAppend | cloud_scheduler/template.py:143-163 | one more record in the iteration adds it to the result exactly when it matches |
| Templates.IsAbsolute | cloud_scheduler/template.py:130 | definition of POSIX `os.path.isabs`: the path starts with `/`; `Templates.ResolvePathShape` states how it splits the two cases |
| Templates.AfterLastSlash | cloud_scheduler/template.py:135-136 | the split point of `dirname` is just after the last `/`, and no `/` follows it |
| Templates.StripTrailingSlashes | cloud_scheduler/template.py:135-136 | trailing slashes are removed and nothing else |
| Templates.Dirname | cloud_scheduler/template.py:135-136 | definition of POSIX `os.path.dirname`; `Templates.DirnameShape` pins it down |
| Templates.DirnameShape | cloud_scheduler/template.py:135-136 | `os.path.dirname` cuts the path at its last `/` and drops the slashes just before the cut, unless only slashes precede it; it is a prefix of the path followed only by slashes and the final component, and it is empty exactly when the path has no `/` |
| Templates.ResolvePath | cloud_scheduler/template.py:130-138 | definition of `get_abspath_in_template` once the name is known; `Templates.ResolvePathShape` states its shape |
| Templates.ResolvePathShape | cloud_scheduler/template.py:130-138 | an absolute path is returned as is; a relative one, with one leading `./` removed, is placed after the template file's directory and a `/`, and lands under the root when the template path has no directory part |
| Templates.LoadOnce | cloud_scheduler/template.py:249-254 | definition of `_is_load_once`: the kind's `load_once` option, `False` when absent, is truthy |
| Templates.LoadSeparately | cloud_scheduler/template.py:256-261 | definition of `_is_load_separately`: the kind's `load_separately` option, `False` when absent, is truthy; `Templates.CacheSkipsSeparateKinds` states its effect |
| Templates.IsLoaded | cloud_scheduler/template.py:221-222 | definition of `is_loaded`: the kind has a cache and the name is in it; `Templates.Template.GetItem` and `Templates.CacheItemEffect` state its use |
| Templates.MakeKindInfo | cloud_scheduler/template.py:263-269 | definition of `_make_kind_info`: the kind, worker, parser and options of a setting, with no options meaning an empty dictionary; `Templates.LaterRegistrationWins` states what registration stores |
| Templates.Registered | cloud_scheduler/template.py:106-111 | definition of the kind table after `_register` of each setting in order; `Templates.LaterRegistrationWins` and `Templates.UnregisteredKindsKeep` state its content |
| Templates.LaterRegistrationWins | cloud_scheduler/template.py:106-111 | registering settings in order, a kind ends with the info of its last setting |
| Templates.UnregisteredKindsKeep | cloud_scheduler/template.py:231-232 | a kind no setting names keeps its previous info or stays absent |
| Templates.CacheItem | cloud_scheduler/template.py:209-219 | definition of `_load_item` on the cache; `Templates.CacheItemEffect` states its effect |
| Templates.CacheItemEffect | cloud_scheduler/template.py:209-219 | `_load_item` fails exactly for an unregistered kind or, when it has to parse, an unknown name; it skips a cached `load_once` item and a kind without parser; otherwise it stores the parsed value under (kind, name); every other cached item is left alone |
| Templates.CacheFrom | cloud_scheduler/template.py:190-200 | definition of `_load_items` from one position of the index on; the three lemmas below state its effect |
| Templates.CacheSkipsSeparateKinds | cloud_scheduler/template.py:197-198 | `_load_items` never touches the cache of a `load_separately` kind |
| Templates.CacheFailsOnlyForUnregisteredKinds | cloud_scheduler/template.py:190-200 | `_load_items` over an admitted index raises exactly when some indexed template's kind is not registered |
| Templates.CacheKeepsOtherNames | cloud_scheduler/template.py:190-200 | `_load_items` from one position on changes no cache entry whose name is not among the templates from that position on, however it ends |
| Templates.CacheCoversEagerKinds | cloud_scheduler/template.py:190-200 | after a successful `_load_items`, nothing cached before is gone, and every template of a registered kind with a parser that is not `load_separately` is cached |
| Templates.CacheStoresParsedItems | cloud_scheduler/template.py:190-219 | after a successful `_load_items`, such a template's entry is the item of its kind, name and parsed value, unless its kind is `load_once` and it was already cached |
| Templates.CacheLoadsEagerKinds | cloud_scheduler/template.py:190-219 | after a successful `_load_items`, nothing cached before is gone; every template of a registered kind with a parser that is not `load_separately` is cached, and holds the item of its kind, name and parsed value unless its kind is `load_once` and it was already cached; an entry under a name outside the pass keeps its value |
| Templates.Process | cloud_scheduler/template.py:238-246 | a result comes exactly when the kind has a process schema, the arguments with `template_name` set pass it, and the kind is registered with a worker; it is the worker applied to the validated arguments; failing the schema raises the schema error, and a kind without worker always raises, with the missing-worker error once the arguments pass the schema |
| Templates.Template.constructor | cloud_scheduler/template.py:20-21 | a new registry has no templates, no kind info and no cached items |
| Templates.Template.LoadDocumentAt | cloud_scheduler/template.py:45-88 | one iteration of `load` on the current index gives the new index or the error that `LoadDocument` specifies |
| Templates.Template.Load | cloud_scheduler/template.py:37-88 | the method's outcome and the new index are those of loading the file's documents from the old index |
| Templates.Template.Loads | cloud_scheduler/template.py:116-121 | the index is rebuilt from empty by loading every file in order, and the outcome is that load's |
| Templates.Template.Update | cloud_scheduler/template.py:24-27 | an unknown name raises and changes nothing; otherwise the template's own file is reloaded with `update`, and an unreadable file raises without change |
| Templates.Template.Register | cloud_scheduler/template.py:231-232 | the kind's info is replaced and every other kind keeps its own |
| Templates.Template.Init | cloud_scheduler/template.py:103-113 | the index is that of loading all files; when loading raises nothing else changes; otherwise every setting is registered in order and, when there were settings, the cache is filled as `_load_items` fills it |
| Templates.Template.ValidExistTemplate | cloud_scheduler/template.py:171-176 | succeeds exactly when the name is indexed, and otherwise raises name-not-found |
| Templates.Template.FindByName | cloud_scheduler/template.py:123-125 | gives the record stored under the name, whose own name is that name, or raises name-not-found |
| Templates.Template.Get | cloud_scheduler/template.py:99-101 | gives the stored document of an indexed name, or a KeyError |
| Templates.Template.GetSpec | cloud_scheduler/template.py:167-169 | gives the validated spec of an indexed name, or raises name-not-found |
| Templates.Template.GetKind | cloud_scheduler/template.py:178-181 | gives the non-empty kind of an indexed name, or raises name-not-found |
| Templates.Template.GetAbspathInTemplate | cloud_scheduler/template.py:127-138 | resolves the path against the template's file for an indexed name, or raises name-not-found |
| Templates.Template.Find | cloud_scheduler/template.py:140-165 | the result is the matching records in iteration order, and a record is in it exactly when it is indexed and matches |
| Templates.Template.GetItem | cloud_scheduler/template.py:96-97 | gives the cached value exactly when (kind, name) is cached, else a KeyError naming the missing key |
| Templates.Template.GetItems | cloud_scheduler/template.py:29-34 | gives, for a cached kind, every cached name with the value `get_item` gives for it, else a KeyError |
| Templates.Template.LoadItem | cloud_scheduler/template.py:209-219 | the cache changes as `_load_item` specifies, and not at all when it raises |
| Templates.Template.LoadItems | cloud_scheduler/template.py:190-200 | the cache and outcome are those of `_load_items` over the index in its order |
| Templates.Template.LoadItemByName | cloud_scheduler/template.py:203-206 | an unknown name raises and changes nothing; otherwise the item is loaded under the template's own kind |
| Templates.Template.ProcessByKind | cloud_scheduler/template.py:235-246 | when caching the item raises nothing else happens; otherwise the cache is updated and the result is the worker's on the validated arguments |
| Scheduling.Raise | cloud_scheduler/scheduler.py:140 | a failed remote call raises ResourceNotFoundException exactly when the service reported the resource missing |
| Scheduling.CrawlerArguments | cloud_scheduler/scheduler.py:93-97 | the crawler's description, S3 target path and schedule come from the spec, and the first of them missing, in Python's evaluation order, is the KeyError |
| Scheduling.DatabaseName | cloud_scheduler/scheduler.py:76 | definition of the Glue database name: the snake-cased prefix, `_` and the snake-cased name; `Scheduling.DatabaseNameIsLowerCase` states it has no capital |
| Scheduling.CrawlerName | cloud_scheduler/scheduler.py:77 | definition of the crawler name: prefix, name and `Crawler`; `Scheduling.GlueCreatesCrawler` states where it is used |
| Scheduling.GlueRun | cloud_scheduler/scheduler.py:74-100 | definition of `put_glue` as the calls it makes and how it ends; the lemmas below state its properties |
| Scheduling.GlueCreatesDatabaseOnlyWhenMissing | cloud_scheduler/scheduler.py:79-85 | `put_glue` asks for the database first and creates it exactly when that lookup fails |
| Scheduling.GlueIgnoresDeleteCrawlerReply | cloud_scheduler/scheduler.py:88-91 | whatever deleting the crawler answers, `put_glue` goes on the same way |
| Scheduling.GlueCreatesCrawler | cloud_scheduler/scheduler.py:88-100 | once the database exists or was created, the crawler `prefix+name+Crawler` is deleted; a spec missing the description, S3 target path or schedule then raises that KeyError with the deletion as last call, and otherwise the last call creates the crawler over the snake-cased database with those three values and the configured role |
| Scheduling.DatabaseNameIsLowerCase | cloud_scheduler/scheduler.py:76 | the Glue database name has no upper-case letter |
| Scheduling.CloudwatchRun | cloud_scheduler/scheduler.py:104-168 | definition of `put_cloudwatch_event` as the calls it makes and how it ends; the lemmas below state its properties |
| Scheduling.CloudwatchGrantsPermissionFirst | cloud_scheduler/scheduler.py:105-125 | the function is `FunctionName`, or the template's own name without one; the first call asks for its invoke permission under `prefix+function+_Statement`, and another call always follows |
| Scheduling.CloudwatchIgnoresPermissionReply | cloud_scheduler/scheduler.py:119-129 | whatever the permission call answers, `put_cloudwatch_event` goes on the same way |
| Scheduling.CloudwatchDeletedBranch | cloud_scheduler/scheduler.py:130-141 | a deleted template removes the target of rule `prefix+FunctionName`; a not-found reply ends the run without error, any other failure raises, and after a successful removal the rule is deleted, a not-found reply again being ignored and any other failure raising; it never writes a rule or target |
| Scheduling.CloudwatchCreateBranch | cloud_scheduler/scheduler.py:142-164 | a template that is not deleted writes rule `prefix+name`, and a failure there raises; then a lookup of the function that fails, or answers without `Configuration.FunctionArn`, raises invalid-function-name after three calls; otherwise the target with id `prefix+FunctionName-target`, that ARN and the JSON input is attached to rule `prefix+name`, and the run ends as that call does |
| Scheduling.DeleteMissesCreatedRule | cloud_scheduler/scheduler.py:107-108 | when `FunctionName` differs from the template name, deleting removes a different rule from the one creating writes |
| Scheduling.DeployOne | cloud_scheduler/scheduler.py:170-178 | an unindexed name raises name-not-found; a cloudwatch or glue template runs its procedure on its indexed spec; any other kind of an indexed template raises invalid-kind for that kind without a remote call |
| Scheduling.DeployList | cloud_scheduler/scheduler.py:187-188 | definition of `deploy_all`'s loop: each template sees the calls made before it, and the first exception ends it; the two lemmas below state its properties |
| Scheduling.DeployStopsAtFirstError | cloud_scheduler/scheduler.py:187-188 | a failed deployment is the successful deployment of a prefix followed by one template that raises, and no later template is deployed |
| Scheduling.DeployRejectsUnknownKind | cloud_scheduler/scheduler.py:177-178 | a template of any kind other than glue and cloudwatch makes the whole deployment raise, wherever it sits |
| Scheduling.Unchanged | cloud_scheduler/scheduler.py:51-57 | definition of the inner loop of `filter_template`: some snapshot entry has the template's name and an equal spec; `Scheduling.FilteredExactly` states its use |
| Scheduling.Filtered | cloud_scheduler/scheduler.py:41-62 | definition of the templates `filter_template` keeps; the lemmas below state which |
| Scheduling.FilteredExactly | cloud_scheduler/scheduler.py:41-62 | a template is kept exactly when the snapshot holds no entry with its name and an equal spec; the kept ones keep their order |
| Scheduling.NewNamesKept | cloud_scheduler/scheduler.py:51-60 | a template whose name the snapshot lacks is always deployed |
| Scheduling.FilteredDropsHeld | cloud_scheduler/scheduler.py:51-60 | when the snapshot holds every template unchanged, nothing is left |
| Scheduling.FilteredAgainstItselfIsEmpty | cloud_scheduler/scheduler.py:41-62 | against a snapshot of the same templates nothing is left to deploy |
| Scheduling.CamelName | cloud_scheduler/scheduler.py:209 | definition of the generated name: `to_camel_case` of `SR_`, the database uid, the database and the table joined by `_`; `Scheduling.GeneratedGlueTemplate` states its shape |
| Scheduling.GlueTemplate | cloud_scheduler/scheduler.py:210-218 | definition of the glue template emitted for one target: kind `glue`, name `glue-` plus the camel-cased name, and a spec with that name, the S3 path and the schedule |
| Scheduling.GeneratedGlueTemplate | cloud_scheduler/scheduler.py:206-218 | a generated glue name starts with `SR` and has no underscore; deploying the generated spec as is, with the database already present, fails with a KeyError on `Description` after the database probe and the crawler deletion |
| Scheduling.Scheduler.constructor | cloud_scheduler/scheduler.py:21-23 | the templates to deploy are the registry's glue templates followed by its cloudwatch templates, each in index order, and the changed ones are those that `filter_template` keeps |
| Scheduling.Scheduler.FilterTemplate | cloud_scheduler/scheduler.py:41-62 | without a snapshot every template; with one, exactly the templates it does not hold unchanged, in order |
| Scheduling.Scheduler.PutGlue | cloud_scheduler/scheduler.py:74-100 | the calls made and the outcome are those of the glue procedure |
| Scheduling.Scheduler.PutCloudwatchEvent | cloud_scheduler/scheduler.py:104-168 | the calls made and the outcome are those of the cloudwatch procedure |
| Scheduling.Scheduler.Deploy | cloud_scheduler/scheduler.py:170-178 | the calls made and the outcome are those of deploying the one template |
| Scheduling.Scheduler.DeployAll | cloud_scheduler/scheduler.py:180-188 | the calls made and the outcome are those of deploying all templates (or only the changed ones) in order, each seeing the calls before it, up to the first exception |
| Scheduling.Scheduler.AutoCreate | cloud_scheduler/scheduler.py:205-218 | one glue template per Semi Replicator target, in order, with name `glue-` plus the camel-cased name and an S3 path built from the bucket, database uid, database and table |

## Left out

- Reading files and parsing YAML and JSON: each template file is given as its parsed documents. Only `Template.Update` can meet a file that cannot be opened (the `Unreadable` error); `Loads` and `Init` take files already read, so the error `_loads` raises for a walked file that cannot be opened is not modelled.
- YAML documents are parsed lazily by `yaml.full_load_all`, so a file whose later document does not parse leaves its earlier documents indexed; the model takes every file as fully parsed and does not capture that failure.
- The directory walk of `find_all_by_name`: its result is the list of files given to `Loads` and `Init`, in that order.
- The schema validator and the matching helpers of the utility module: they are parameters (`Templates.Tools`), taken to be total functions.
- Parsers and workers of registered kinds: they are total functions supplied with the settings, so an exception raised inside one is not modelled.
- `self.templates` missing before the first `_loads`: the registry starts with an empty index.
- A kind setting without `kind`, `worker` or `parser`: a KeyError there is excluded by the `KindSetting` type.
- Casing of characters outside ASCII: `make_snake`, `.lower()` and `.title()` are modelled on ASCII letters only.
- Logging and `print` calls: they have no effect on the state.
- `cloud_scheduler/__init__.py` and `Scheduler.__init__` beyond lines 21-23: the clients and settings it reads are constructor parameters or the remote-service parameter.
- `deploy`, `save_legacy_templates`, `load_legacy_templates`, `get_legacy_template_path` and `deploy_to_s3`: file and S3 I/O. The snapshot is an `Option` given to the constructor.
- The mutable default argument of `process_by_kind`: the model passes the arguments as a value, so the caller's dictionary is not changed.
- `find` with a `category` that is not a string: the model only has "no category" (`None`) or a string.
- `json.dumps` of the event pattern and the target input: they are recorded as `Json(value)` payloads, not as text.
- The tuple unpacking of each Semi Replicator target: targets are given as triples, so a malformed target is not modelled.
- Python's `True == 1` when comparing specs in `filter_template`: specs are compared as values, which tells `True` from `1`.
- Templates.Template.GetItems: the cache is a map of maps, so the insertion order of the dictionary `get_items` returns (the order in which `_load_items` and `_load_item` cached the names) is not modelled; only its keys and values are.
- Floating-point numbers: `Value` has no float, so a YAML or JSON float in a spec is not modelled, and neither is `1 == 1.0` when `filter_template` compares specs.
- The responses of the remote calls other than `get_function`: the model records that a call answered, not what it returned.
- Naming.Base64Encode: characterised by injectivity rather than by a decoder, because only distinctness of generated names matters to the registry.
- `auto_create` printing the YAML: the model returns the list of generated templates.
