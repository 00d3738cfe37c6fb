# intl-csv2json in Dafny

A verified model of the core of intl-csv2json. The tool turns a translation CSV
into one JSON file per language. The CSV's first column holds the Chinese
source text and each further column holds a language. The model covers:

- `parseCSVContent`, which builds the table language → (source text →
  translation) from the CSV records;
- `updateNestedStructure`, which merges a template JSON object into a
  language's object in place, counting updated and unchanged leaves;
- `processLanguageFiles`, which merges, decides whether to write each
  `<lang>.json` file, and keeps the statistics;
- the group-key check and the error order of `processMultiLanguage`;
- lib/i18n.js: the interface language taken from the locale variables,
  `setLanguage`, and `t`, which looks a message up and fills in its `{name}`
  placeholders.

Modules, one per file:

- `Wrappers` (wrappers.dfy): `Option` and `Result`.
- `JsonValues` (json.dfy): JSON values. An object is a sequence of members in
  insertion order. The module also models JavaScript's property read,
  `delete`, assignment and truthiness.
- `CsvTable` (csv_table.dfy): `parseCSVContent`, as a method with loops. It is
  proved equal to a prefix fold, and that fold is proved equal to a
  row-by-row reference definition.
- `TreeMerge` (tree_merge.dfy): the merge. It has a functional specification
  and the class `JsonObject`, whose methods rewrite the object in place the
  way the JavaScript does.
- `LanguageFiles` (language_files.dfy): the per-language loop over an output
  directory. The directory is the class `OutputDirectory`, holding a map from
  language code to file contents.
- `I18n` (i18n.dfy): lib/i18n.js, with the module state as the class
  `Localizer`.

The environment is passed in as parameters:

- the four locale variables, as strings, with "" for an unset variable;
- the CSV records, as already parsed;
- the template, as a parsed JSON value;
- the set of languages whose file write fails.

Behaviour of the code that the model keeps:

- A CSV with only a header row is accepted, with a record count of 0 and no translations.
- The group key is only checked: the template's value under it must be truthy (lib/processor.js:36-38). The whole template is then merged, not only the group.
- When several CSV rows share a source text, the last row wins.
- A file is written only when some leaf was updated, so a file on disk can keep keys the template no longer has (`WriteNeedsAnUpdate`).

## Model

| member | source | states |
|---|---|---|
| CsvTable.ParseCsvContent | lib/processor.js:81-112 | Fails exactly when there are no records. Otherwise `recordCount` is the number of records minus one, and the table is the fold of the data rows, skipping rows without a source text. |
| CsvTable.LastColumn | lib/processor.js:102-107 | Finds the last column among 1 .. j-1 labelled with a language. That column is the one whose cell survives in a row, since later columns overwrite earlier ones. |
| CsvTable.AddColumnsGet | lib/processor.js:102-107 | After a row's columns are stored, a lookup yields the row's cell (or its source text when the cell is empty) from the last matching column, and otherwise the earlier entry. |
| CsvTable.TableIsLastTranslation | lib/processor.js:97-109 | Each table entry is the translation given by the last non-skipped row with that source text, so later rows override earlier ones. |
| CsvTable.EmptySourceNeverTranslated | lib/processor.js:99 | The table has no entry for the empty source text. |
| CsvTable.OnlyColumnLanguages | lib/processor.js:102-105 | Only codes labelling some column 1 .. \|langCodes\|-1 get a table. Column 0, the source column, never gets one. |
| JsonValues.Lookup | lib/processor.js:138 | A property read is undefined exactly when no member has the key. Otherwise it returns a member's value. |
| JsonValues.LookupDistinct | lib/processor.js:138 | In an object with distinct keys, reading member i's key returns member i's value. |
| JsonValues.Remove | lib/processor.js:184-186 | `delete` leaves no member with the key, keeps every member with another key and adds none, and shrinks the object when the first member goes. |
| JsonValues.RemoveAbsent | lib/processor.js:184-186 | Deleting a key the object does not have leaves it as it is. |
| JsonValues.RemoveAt | lib/processor.js:184-186 | In an object with distinct keys, deleting the key of member i removes exactly that member and keeps the others in their order. |
| JsonValues.Assign | lib/processor.js:189-191 | Assigning a new key appends the member at the end, so insertion order is kept. |
| TreeMerge.MergeValue | lib/processor.js:136-178 | A counted leaf is one that is Chinese or translated. It counts once, as updated exactly when the new value differs from the prior. An untranslated leaf counts nothing and keeps its prior value, or takes the template's value when there is none. |
| TreeMerge.MergeAt | lib/processor.js:135-178 | Member i of the merged object has the template's key i. Its value is the recursive merge for an object, the template value for "zh", the translation when one exists, else the prior value or the template value. |
| TreeMerge.MergeUpToKeys | lib/processor.js:133-135 | The merged members follow the template's keys in the template's order. |
| TreeMerge.MergeKeysDistinct | lib/processor.js:133 | The merged object has distinct keys. |
| TreeMerge.MergeShape | lib/processor.js:128-194 | Wherever the template has an object, the merge has an object with exactly the template's keys in the template's order, so keys the template lacks are dropped there. At an untranslated template leaf the prior value is kept whole, even when it is an object. |
| TreeMerge.ZhMergeIsTemplate | lib/processor.js:155-162 | For "zh", whatever the prior object, the merged object is exactly the template. |
| TreeMerge.NewFileIsTranslatedTemplate | lib/processor.js:163-178 | Merging into a copy of the template, as is done for a missing or unreadable file, gives the template with every translated leaf replaced and every other leaf kept. |
| TreeMerge.MergeIdempotent | lib/processor.js:128-194 | Merging again into the merged object gives the same object, no updates, and every leaf counted before now counted unchanged. |
| TreeMerge.CopyUpdates | lib/processor.js:136-178 | Merging the template into a copy of itself updates some leaf exactly when, for a language other than "zh", some template leaf has a translation that differs from the leaf. |
| TreeMerge.MergeCounts | lib/processor.js:151-178 | Updated plus unchanged equals the number of counted leaves of the template, whatever the prior object. |
| TreeMerge.JsonObject.UpdateNestedStructure | lib/processor.js:128-194 | Afterwards the object holds the merge of the template into its old members, and the returned counters are the merge's. |
| TreeMerge.JsonObject.MergeMembers | lib/processor.js:133-180 | The loop over the template's keys builds `newTarget` and the counters of the merge. |
| TreeMerge.JsonObject.MergeMember | lib/processor.js:136-178 | One key's branch: a nested object is merged into a fresh object seeded with the prior nested object; a leaf follows the zh, translation or keep rule. |
| TreeMerge.JsonObject.ReplaceMembers | lib/processor.js:182-191 | Deleting every member and then assigning the new members in order leaves exactly the new members. |
| LanguageFiles.Run | lib/processor.js:196-275 | No more languages are written than reported, and no more are reported than listed. |
| LanguageFiles.RunFrame | lib/processor.js:196-198 | Only the listed languages' files can change. |
| LanguageFiles.OutputDirectory.MergeLanguage | lib/processor.js:200-238 | Reads the file, or copies the template for a missing or unreadable file, merges, and decides `hasChanges` as `LanguageStep` does. |
| LanguageFiles.OutputDirectory.ProcessLanguage | lib/processor.js:240-272 | A changed language is written, reported with its update count and added to all three statistics, unless its write fails, in which case nothing changes. An unchanged language is reported with 0 and adds only its unchanged count. |
| LanguageFiles.OutputDirectory.ProcessLanguageFiles | lib/processor.js:114-276 | The files, `processedLangs` and `totalStats` are those of processing the languages in order. |
| LanguageFiles.OutputDirectory.ProcessMultiLanguage | lib/processor.js:36-71 | A non-empty group key whose template value is falsy fails first and touches no file. Then empty CSV records fail. Otherwise the whole template is processed for every language. |
| LanguageFiles.StepSettles | lib/processor.js:196-238 | Processing a just-merged file again updates nothing and decides not to write it. |
| LanguageFiles.RunSettles | lib/processor.js:196-273 | After a run whose writes all succeed, no listed language would be written again. |
| LanguageFiles.SecondRunWritesNothing | lib/processor.js:196-275 | A second run over the same template and table writes no file, updates nothing, and reports exactly the listed languages, in order, each with 0. |
| LanguageFiles.NewFileWritten | lib/processor.js:200-238 | A missing or unreadable file is written exactly when some template leaf has a translation that differs from its text. A missing or unreadable zh.json is never written. |
| LanguageFiles.ZhFileNeverCreated | lib/processor.js:196-273 | A run never creates a zh.json that did not exist. |
| LanguageFiles.RunTotals | lib/processor.js:240-271 | `totalStats.updated` is the sum of the counts in `processedLangs`, and `totalStats.languages` is the number of entries with a positive count. |
| LanguageFiles.RunReportsEvery | lib/processor.js:196-272 | When every write succeeds, `processedLangs` has one entry per listed language, in the listed order. |
| LanguageFiles.WrittenFilesMatchTemplate | lib/processor.js:196-273 | Every file the run writes holds an object with the template's shape. |
| LanguageFiles.WriteNeedsAnUpdate | lib/processor.js:229-241 | A file whose counted leaves already agree is not rewritten, even when it holds keys the template lacks. A new language without translations gets no file. |
| I18n.EnvLang | lib/i18n.js:39 | The result is one of LANG, LANGUAGE, LC_ALL, LC_MESSAGES, and every variable before it in that order is empty. It is empty exactly when none is set. |
| I18n.BeforeUnderscore | lib/i18n.js:42 | `split('_')[0]` is the prefix before the first underscore, contains none, and is followed by an underscore or the end. |
| I18n.LowerIsZh | lib/i18n.js:42-43 | A tag lower-cases to "zh" exactly when it is two letters, z or Z then h or H. |
| I18n.SystemLanguage | lib/i18n.js:37-46 | The language is "zh" or "en". It is "zh" exactly when the first set locale variable is zh, in either case, before its first underscore. |
| I18n.SystemLanguageExamples | lib/i18n.js:39-43 | A set LANG hides the other variables. "zh-CN" is not recognised as Chinese. |
| I18n.IndexFrom | lib/i18n.js:63 | Finds the first match of the pattern at or after a position, or reports that there is none. |
| I18n.ExpandPlain | lib/i18n.js:63 | A replacement value without `$` is inserted literally. |
| I18n.ReplaceFirstAt | lib/i18n.js:63 | `replace` with a string pattern replaces only the first match and keeps the text around it. |
| I18n.ReplaceFirstAbsent | lib/i18n.js:63 | Without a match the message is unchanged. |
| I18n.ReplaceFirstKeepsLater | lib/i18n.js:63 | A later match of the same placeholder is left in place, shifted. |
| I18n.ApplyParamsAbsent | lib/i18n.js:62-64 | Parameters whose placeholders do not occur leave the message unchanged. |
| I18n.MessageFor | lib/i18n.js:59 | The message when it is present and non-empty, and the key in every other case. The result is empty only for an empty key. |
| I18n.Localizer.constructor | lib/i18n.js:49 | The initial language is the system language. |
| I18n.Localizer.SetLanguage | lib/i18n.js:52-54 | The language becomes "zh" exactly for "zh", and "en" otherwise. |
| I18n.Localizer.LangMessages | lib/i18n.js:58 | Uses the current language's table when loaded, else English's, and is undefined only when neither is loaded. |
| I18n.Localizer.Translate | lib/i18n.js:57-67 | The looked-up message, or the key, with each parameter's first placeholder replaced in key order. It fails where `t` would throw on a missing table. |

## Left out

- The CSV text parser (csv-parse), with its BOM handling, `trim`, quoting and empty-line skipping: records enter as already-parsed rows.
- Reading and writing files and JSON text: the template and language files enter as parsed values. The output directory is a map, and a failed write is given as a set of language codes.
- Creating the output directory, the template's JSON parse error, and the `.csv` extension check on the CSV path, because the `path` module is not part of this model.
- The default `langCodes` of `["zh", "en"]`: the codes are always passed explicitly.
- Console output, colours and `logProcessingResults`.
- The command-line scripts under bin/, and `loadMessages`: the message tables are given to the `Localizer` constructor.
- JSON arrays, and number values other than integers.
- JavaScript's placement of integer-like keys before other keys in `for…in` order.
- Keys that collide with `Object.prototype` members, such as `__proto__` or `toString`.
- A language file that parses to something other than an object. In the code, a file holding `null` makes the merge throw when it reads a property (lib/processor.js:138, 156). For a string, number or boolean, the deletes and assignments of lib/processor.js:184-191 have no effect, because the file is not in strict mode. A truthy value then serialises as it was read and is not rewritten, and its language is reported with 0. `0`, `false` or `""` is rewritten unchanged when some leaf was updated (lib/processor.js:230-238).
- JsonValues.Remove: states which members are kept, but their order only through `RemoveAt`, for objects with distinct keys.
- JsonValues.Assign: states only the case of a new key; overwriting an existing key in place is left to its body.
- I18n.ToLower: lower-cases ASCII letters only.
- Message values that are not strings, and parameter values that are not strings or are functions (a function replacer).
