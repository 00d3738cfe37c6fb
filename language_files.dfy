/**
 * The per-language driver `processLanguageFiles` and the entry point
 * `processMultiLanguage` of lib/processor.js, with the file system reduced
 * to a map from language code to what `<outputDir>/<langCode>.json` holds.
 */
module LanguageFiles {
  import opened Wrappers
  import opened JsonValues
  import opened CsvTable
  import opened TreeMerge

  /** A language file that exists: either it cannot be read or parsed as
      JSON, or it holds an object with these members. */
  datatype Stored = Unreadable | Tree(fields: seq<Field>)

  /** What merging one language produced: the new object, its counters, and
      whether the file is to be written (`hasChanges`). */
  datatype Step = Step(tree: seq<Field>, updatedCount: nat, unchangedCount: nat, hasChanges: bool)

  /** An entry of `processedLangs`, `${langCode}(${count}项)`. */
  datatype Processed = Processed(langCode: string, count: nat)

  /** `totalStats`. */
  datatype Stats = Stats(updated: nat, unchangedTotal: nat, languages: nat)

  /** The output directory's files together with what the run has reported. */
  datatype RunState = RunState(files: map<string, Stored>, processed: seq<Processed>, stats: Stats)

  /** Reading `<langCode>.json`: None when the file does not exist. */
  function Read(files: map<string, Stored>, langCode: string): Option<Stored>
  {
    if langCode in files then Some(files[langCode]) else None
  }

  /** `langJson` before the merge: the parsed file, or a deep copy of the
      template when the file is missing or unreadable. */
  function InitialTree(template: Json, stored: Option<Stored>): seq<Field>
    requires template.Obj?
  {
    if stored.Some? && stored.value.Tree? then stored.value.fields else template.fields
  }

  /** One language: merge, then decide whether to write. The file is written
      when some leaf was updated, unless a parsed prior file serialises
      exactly like the merged object. */
  function LanguageStep(template: Json, stored: Option<Stored>, langCode: string, table: Table): (s: Step)
    requires template.Obj?
    ensures s.hasChanges <==>
      s.updatedCount > 0 && !(stored.Some? && stored.value.Tree? && stored.value.fields == s.tree)
  {
    var r := Merge(template, InitialTree(template, stored), langCode, table);
    var originalLangJson := if stored.Some? && stored.value.Tree? then Some(stored.value.fields) else None;
    Step(r.fields, r.updatedCount, r.unchangedCount, r.updatedCount > 0 && originalLangJson != Some(r.fields))
  }

  /** One iteration of the loop over the language codes; a language whose
      write fails (`langCode in failing`) leaves files and statistics as
      they were. */
  function ProcessOne(s: RunState, template: Json, langCode: string, table: Table, failing: set<string>): RunState
    requires template.Obj?
  {
    var step := LanguageStep(template, Read(s.files, langCode), langCode, table);
    if step.hasChanges then
      if langCode in failing then s
      else
        RunState(s.files[langCode := Tree(step.tree)],
                 s.processed + [Processed(langCode, step.updatedCount)],
                 Stats(s.stats.updated + step.updatedCount, s.stats.unchangedTotal + step.unchangedCount, s.stats.languages + 1))
    else
      RunState(s.files, s.processed + [Processed(langCode, 0)],
               Stats(s.stats.updated, s.stats.unchangedTotal + step.unchangedCount, s.stats.languages))
  }

  /** The whole loop, language by language: every language is reported at
      most once, and only a reported language counts as written. */
  function Run(files: map<string, Stored>, langCodes: seq<string>, template: Json, table: Table, failing: set<string>): (r: RunState)
    requires template.Obj?
    ensures r.stats.languages <= |r.processed| <= |langCodes|
  {
    if langCodes == [] then RunState(files, [], Stats(0, 0, 0))
    else
      var last := langCodes[|langCodes| - 1];
      var prefix := langCodes[..|langCodes| - 1];
      var s := Run(files, prefix, template, table, failing);
      ProcessOne(s, template, last, table, failing)
  }

  /** Only the listed languages' files can change. */
  lemma {:induction false} RunFrame(files: map<string, Stored>, langCodes: seq<string>, template: Json, table: Table, failing: set<string>)
    requires template.Obj?
    ensures forall l :: l !in langCodes ==> Read(Run(files, langCodes, template, table, failing).files, l) == Read(files, l)
  {
    if langCodes != [] {
      var prefix := langCodes[..|langCodes| - 1];
      RunFrame(files, prefix, template, table, failing);
      assert forall l :: l in prefix ==> l in langCodes;
    }
  }

  lemma RunSnoc(files: map<string, Stored>, langCodes: seq<string>, i: nat, template: Json, table: Table, failing: set<string>)
    requires template.Obj? && i < |langCodes|
    ensures Run(files, langCodes[..i + 1], template, table, failing)
         == ProcessOne(Run(files, langCodes[..i], template, table, failing), template, langCodes[i], table, failing)
  {
    assert langCodes[..i + 1][..i] == langCodes[..i];
  }

  /** The `groupKey` check of `processMultiLanguage`: a non-empty group key
      whose template value is falsy is an error. */
  predicate GroupKeyMissing(template: Json, groupKey: string)
    requires template.Obj?
  {
    groupKey != "" && !Truthy(Lookup(template.fields, groupKey))
  }

  datatype ProcessError = MissingGroupKey(groupKey: string) | MalformedCsv

  /** The output directory: the language files the run reads and writes. */
  class OutputDirectory {
    var files: map<string, Stored>

    constructor (files: map<string, Stored>)
      ensures this.files == files
    {
      this.files := files;
    }

    /** The body of the loop of `processLanguageFiles` up to the write:
        reads the language's file (or copies the template), merges the
        template into it and decides whether it has changed. */
    static method MergeLanguage(stored: Option<Stored>, langCode: string, template: Json, table: Table) returns (step: Step)
      requires template.Obj? && WellFormed(template)
      ensures step == LanguageStep(template, stored, langCode, table)
    {
      var langJson: JsonObject;
      var originalLangJson: Option<seq<Field>> := None;
      if stored.Some? && stored.value.Tree? {
        langJson := new JsonObject(stored.value.fields);
        originalLangJson := Some(stored.value.fields);
      } else {
        // missing or unreadable: start from a copy of the template
        langJson := new JsonObject(template.fields);
      }
      var updatedCount, unchangedCount := langJson.UpdateNestedStructure(template, langCode, table);
      var hasChanges := updatedCount > 0;
      if originalLangJson.Some? && originalLangJson.value == langJson.fields {
        hasChanges := false;
      }
      step := Step(langJson.fields, updatedCount, unchangedCount, hasChanges);
    }

    /** One iteration of the loop of `processLanguageFiles`: merge, then
        write the file and report it when it changed and the write succeeds,
        or report it with zero updates when nothing changed. */
    static method ProcessLanguage(s: RunState, langCode: string, template: Json, table: Table, failing: set<string>)
      returns (r: RunState)
      requires template.Obj? && WellFormed(template)
      ensures r == ProcessOne(s, template, langCode, table, failing)
    {
      r := s;
      var step := MergeLanguage(Read(s.files, langCode), langCode, template, table);
      if step.hasChanges {
        if langCode !in failing {
          r := RunState(r.files[langCode := Tree(step.tree)], r.processed + [Processed(langCode, step.updatedCount)],
                        Stats(r.stats.updated + step.updatedCount, r.stats.unchangedTotal + step.unchangedCount, r.stats.languages + 1));
        }
      } else {
        r := RunState(r.files, r.processed + [Processed(langCode, 0)],
                      Stats(r.stats.updated, r.stats.unchangedTotal + step.unchangedCount, r.stats.languages));
      }
    }

    /** `processLanguageFiles`: merges the template into every language's
        file in order, writes the files that changed (except those whose
        write fails) and returns `processedLangs` and `totalStats`. */
    method ProcessLanguageFiles(langCodes: seq<string>, template: Json, table: Table, failing: set<string>)
      returns (processedLangs: seq<Processed>, totalStats: Stats)
      requires template.Obj? && WellFormed(template)
      modifies this
      ensures Run(old(files), langCodes, template, table, failing) == RunState(files, processedLangs, totalStats)
    {
      var state := RunState(files, [], Stats(0, 0, 0));
      var i := 0;
      while i < |langCodes|
        invariant 0 <= i <= |langCodes|
        invariant Run(old(files), langCodes[..i], template, table, failing) == state
        invariant files == state.files
      {
        RunSnoc(old(files), langCodes, i, template, table, failing);
        state := ProcessLanguage(state, langCodes[i], template, table, failing);
        files := state.files;
        i := i + 1;
      }
      processedLangs, totalStats := state.processed, state.stats;
      assert langCodes[..i] == langCodes;
    }

    /** `processMultiLanguage` once the template and the CSV records are
        read: the group-key check comes first, then the CSV table, then the
        loop over the languages. The group key only validates: the whole
        template is merged either way. */
    method ProcessMultiLanguage(template: Json, groupKey: string, records: seq<Row>, langCodes: seq<string>, failing: set<string>)
      returns (r: Result<(seq<Processed>, Stats), ProcessError>)
      requires template.Obj? && WellFormed(template)
      modifies this
      ensures GroupKeyMissing(template, groupKey) ==> r == Failure(MissingGroupKey(groupKey)) && files == old(files)
      ensures !GroupKeyMissing(template, groupKey) && |records| == 0 ==> r == Failure(MalformedCsv) && files == old(files)
      ensures !GroupKeyMissing(template, groupKey) && |records| > 0 ==>
        var run := Run(old(files), langCodes, template, TableUpTo(records, langCodes, |records|), failing);
        r == Success((run.processed, run.stats)) && files == run.files
    {
      if groupKey != "" && !Truthy(Lookup(template.fields, groupKey)) {
        return Failure(MissingGroupKey(groupKey));
      }
      var parsed := ParseCsvContent(records, langCodes);
      if parsed.Failure? {
        return Failure(MalformedCsv);
      }
      var processedLangs, totalStats := ProcessLanguageFiles(langCodes, template, parsed.value.table, failing);
      return Success((processedLangs, totalStats));
    }
  }

  /** A language that was just written is settled: running it again merges
      the written object into itself, updates nothing and writes nothing. */
  lemma StepSettles(template: Json, stored: Option<Stored>, langCode: string, table: Table)
    requires template.Obj? && WellFormed(template)
    ensures var s := LanguageStep(template, stored, langCode, table);
            LanguageStep(template, Some(Tree(s.tree)), langCode, table)
            == Step(s.tree, 0, s.updatedCount + s.unchangedCount, false)
  {
    MergeIdempotent(template, InitialTree(template, stored), langCode, table);
  }

  /** No language in `langCodes` would be written from the files as they are. */
  predicate Settled(files: map<string, Stored>, langCodes: seq<string>, template: Json, table: Table)
    requires template.Obj?
  {
    forall l :: l in langCodes ==> !LanguageStep(template, Read(files, l), l, table).hasChanges
  }

  /** Processing one more language with every write succeeding keeps the
      languages before it settled and settles the new one. */
  lemma SettledAfterStep(s: RunState, prefix: seq<string>, langCode: string, template: Json, table: Table)
    requires template.Obj? && WellFormed(template) && Settled(s.files, prefix, template, table)
    ensures Settled(ProcessOne(s, template, langCode, table, {}).files, prefix + [langCode], template, table)
  {
    var after := ProcessOne(s, template, langCode, table, {}).files;
    if LanguageStep(template, Read(s.files, langCode), langCode, table).hasChanges {
      StepSettles(template, Read(s.files, langCode), langCode, table);
    }
    forall l | l in prefix + [langCode]
      ensures !LanguageStep(template, Read(after, l), l, table).hasChanges
    {
      if l != langCode {
        assert l in prefix;
        assert Read(after, l) == Read(s.files, l);
      }
    }
  }

  /** A run whose writes all succeed leaves every listed language settled. */
  lemma {:induction false} RunSettles(files: map<string, Stored>, langCodes: seq<string>, template: Json, table: Table)
    requires template.Obj? && WellFormed(template)
    ensures Settled(Run(files, langCodes, template, table, {}).files, langCodes, template, table)
  {
    if langCodes != [] {
      var last := langCodes[|langCodes| - 1];
      var prefix := langCodes[..|langCodes| - 1];
      RunSettles(files, prefix, template, table);
      SettledAfterStep(Run(files, prefix, template, table, {}), prefix, last, template, table);
      assert langCodes == prefix + [last];
    }
  }

  lemma {:induction false} SettledRunIsQuiet(files: map<string, Stored>, langCodes: seq<string>, template: Json, table: Table, failing: set<string>)
    requires template.Obj? && Settled(files, langCodes, template, table)
    ensures var r := Run(files, langCodes, template, table, failing);
            r.files == files && r.stats.updated == 0 && r.stats.languages == 0
  {
    if langCodes != [] {
      var prefix := langCodes[..|langCodes| - 1];
      assert forall l :: l in prefix ==> l in langCodes;
      SettledRunIsQuiet(files, prefix, template, table, failing);
    }
  }

  /** A language that would not be written is reported with 0 and leaves
      the files as they are. */
  lemma QuietStep(s: RunState, template: Json, langCode: string, table: Table, failing: set<string>)
    requires template.Obj? && !LanguageStep(template, Read(s.files, langCode), langCode, table).hasChanges
    ensures ProcessOne(s, template, langCode, table, failing).processed == s.processed + [Processed(langCode, 0)]
  {
  }

  lemma {:induction false} SettledRunReportsZero(files: map<string, Stored>, langCodes: seq<string>, template: Json, table: Table, failing: set<string>)
    requires template.Obj? && Settled(files, langCodes, template, table)
    ensures Run(files, langCodes, template, table, failing).processed
         == seq(|langCodes|, i requires 0 <= i < |langCodes| => Processed(langCodes[i], 0))
  {
    if langCodes != [] {
      var last := langCodes[|langCodes| - 1];
      var prefix := langCodes[..|langCodes| - 1];
      assert forall l :: l in prefix ==> l in langCodes;
      SettledRunReportsZero(files, prefix, template, table, failing);
      SettledRunIsQuiet(files, prefix, template, table, failing);
      QuietStep(Run(files, prefix, template, table, failing), template, last, table, failing);
      ZerosSnoc(langCodes);
    }
  }

  lemma ZerosSnoc(langCodes: seq<string>)
    requires langCodes != []
    ensures var prefix := langCodes[..|langCodes| - 1];
            seq(|langCodes|, i requires 0 <= i < |langCodes| => Processed(langCodes[i], 0))
            == seq(|prefix|, i requires 0 <= i < |prefix| => Processed(prefix[i], 0)) + [Processed(langCodes[|langCodes| - 1], 0)]
  {
  }

  /** Running twice in a row: after a first run whose writes all succeed,
      a second run over the same template and table updates no leaf,
      writes no file and reports every language with zero updates. */
  lemma SecondRunWritesNothing(files: map<string, Stored>, langCodes: seq<string>, template: Json, table: Table, failing: set<string>)
    requires template.Obj? && WellFormed(template)
    ensures var first := Run(files, langCodes, template, table, {});
            var second := Run(first.files, langCodes, template, table, failing);
            second.files == first.files && second.stats.updated == 0 && second.stats.languages == 0 &&
            second.processed == seq(|langCodes|, i requires 0 <= i < |langCodes| => Processed(langCodes[i], 0))
  {
    var first := Run(files, langCodes, template, table, {});
    RunSettles(files, langCodes, template, table);
    SettledRunIsQuiet(first.files, langCodes, template, table, failing);
    SettledRunReportsZero(first.files, langCodes, template, table, failing);
  }

  /** A file that changed since `before` holds an object shaped exactly
      like the template. */
  predicate WrittenShaped(before: map<string, Stored>, after: map<string, Stored>, template: Json)
  {
    forall l :: l in after && Read(after, l) != Read(before, l) ==>
      after[l].Tree? && Shaped(template, Obj(after[l].fields))
  }

  lemma ProcessOneShaped(s: RunState, template: Json, langCode: string, table: Table, failing: set<string>)
    requires template.Obj?
    ensures WrittenShaped(s.files, ProcessOne(s, template, langCode, table, failing).files, template)
  {
    MergeShape(template, InitialTree(template, Read(s.files, langCode)), langCode, table);
  }

  lemma WrittenShapedTrans(a: map<string, Stored>, b: map<string, Stored>, c: map<string, Stored>, template: Json)
    requires WrittenShaped(a, b, template) && WrittenShaped(b, c, template)
    requires forall l :: l in a ==> l in b
    ensures WrittenShaped(a, c, template)
  {
  }

  /** Every file the run writes holds an object shaped exactly like the
      template. */
  lemma {:induction false} WrittenFilesMatchTemplate(files: map<string, Stored>, langCodes: seq<string>, template: Json, table: Table, failing: set<string>)
    requires template.Obj?
    ensures WrittenShaped(files, Run(files, langCodes, template, table, failing).files, template)
    ensures forall l :: l in files ==> l in Run(files, langCodes, template, table, failing).files
  {
    if langCodes != [] {
      var last := langCodes[|langCodes| - 1];
      var prefix := langCodes[..|langCodes| - 1];
      WrittenFilesMatchTemplate(files, prefix, template, table, failing);
      var s := Run(files, prefix, template, table, failing);
      ProcessOneShaped(s, template, last, table, failing);
      WrittenShapedTrans(files, s.files, Run(files, langCodes, template, table, failing).files, template);
    }
  }

  /** The file is rewritten only when some counted leaf was updated: a file
      whose leaves already agree keeps keys the template no longer has, and
      a new language without any translation gets no file at all. */
  lemma WriteNeedsAnUpdate()
    ensures var template := Obj([("a", Str("x"))]);
            var table: Table := map["en" := map["x" := "X"]];
            var files := map["en" := Tree([("a", Str("X")), ("old", Str("y"))])];
            Run(files, ["en"], template, table, {}).files == files && !Shaped(template, Obj(files["en"].fields))
    ensures Run(map[], ["en"], Obj([("a", Str("x"))]), map[], {}).files == map[]
  {
  }

  /** A missing or unreadable language file is written exactly when some
      template leaf's translation differs from its text; for "zh" it never
      is. */
  lemma NewFileWritten(template: Json, stored: Option<Stored>, langCode: string, table: Table)
    requires template.Obj? && WellFormed(template)
    requires stored.None? || stored.value.Unreadable?
    ensures LanguageStep(template, stored, langCode, table).hasChanges <==> ChangesWhenCopied(template, langCode, table)
    ensures langCode == "zh" ==> !LanguageStep(template, stored, langCode, table).hasChanges
  {
    CopyUpdates(template, langCode, table);
    if langCode == "zh" {
      NoChangesForZh(template, table);
    }
  }

  lemma {:induction false} NoChangesForZh(value: Json, table: Table)
    ensures !ChangesWhenCopied(value, "zh", table)
  {
    if value.Obj? {
      forall i | 0 <= i < |value.fields|
        ensures !ChangesWhenCopied(value.fields[i].1, "zh", table)
      {
        assert value.fields[i] in value.fields;
        NoChangesForZh(value.fields[i].1, table);
      }
    }
  }

  /** A run never creates a zh.json that did not exist. */
  lemma {:induction false} ZhFileNeverCreated(files: map<string, Stored>, langCodes: seq<string>, template: Json, table: Table, failing: set<string>)
    requires template.Obj? && WellFormed(template) && "zh" !in files
    ensures "zh" !in Run(files, langCodes, template, table, failing).files
  {
    if langCodes != [] {
      var prefix := langCodes[..|langCodes| - 1];
      ZhFileNeverCreated(files, prefix, template, table, failing);
      ZhStep(Run(files, prefix, template, table, failing), template, langCodes[|langCodes| - 1], table, failing);
    }
  }

  lemma ZhStep(s: RunState, template: Json, langCode: string, table: Table, failing: set<string>)
    requires template.Obj? && WellFormed(template) && "zh" !in s.files
    ensures "zh" !in ProcessOne(s, template, langCode, table, failing).files
  {
    if langCode == "zh" {
      NewFileWritten(template, Read(s.files, "zh"), "zh", table);
    }
  }

  /** The sum of the counts reported in `processedLangs`. */
  function SumCounts(processed: seq<Processed>): nat
  {
    if processed == [] then 0 else SumCounts(processed[..|processed| - 1]) + processed[|processed| - 1].count
  }

  /** The number of entries of `processedLangs` with a positive count. */
  function WrittenCount(processed: seq<Processed>): nat
  {
    if processed == [] then 0
    else WrittenCount(processed[..|processed| - 1]) + if processed[|processed| - 1].count > 0 then 1 else 0
  }

  /** `totalStats.updated` is the sum of the reported counts, and
      `totalStats.languages` is the number of languages reported with a
      positive count: exactly the written ones. */
  lemma {:induction false} RunTotals(files: map<string, Stored>, langCodes: seq<string>, template: Json, table: Table, failing: set<string>)
    requires template.Obj?
    ensures var r := Run(files, langCodes, template, table, failing);
            r.stats.updated == SumCounts(r.processed) && r.stats.languages == WrittenCount(r.processed)
  {
    if langCodes != [] {
      var last := langCodes[|langCodes| - 1];
      var prefix := langCodes[..|langCodes| - 1];
      RunTotals(files, prefix, template, table, failing);
      TotalsStep(Run(files, prefix, template, table, failing), template, last, table, failing);
    }
  }

  lemma TotalsStep(s: RunState, template: Json, langCode: string, table: Table, failing: set<string>)
    requires template.Obj?
    requires s.stats.updated == SumCounts(s.processed) && s.stats.languages == WrittenCount(s.processed)
    ensures var r := ProcessOne(s, template, langCode, table, failing);
            r.stats.updated == SumCounts(r.processed) && r.stats.languages == WrittenCount(r.processed)
  {
    var r := ProcessOne(s, template, langCode, table, failing);
    if r.processed != s.processed {
      assert r.processed[..|r.processed| - 1] == s.processed;
    }
  }

  /** When every write succeeds, every listed language is reported, in
      order. */
  lemma {:induction false} RunReportsEvery(files: map<string, Stored>, langCodes: seq<string>, template: Json, table: Table)
    requires template.Obj?
    ensures var r := Run(files, langCodes, template, table, {});
            |r.processed| == |langCodes| && forall i :: 0 <= i < |langCodes| ==> r.processed[i].langCode == langCodes[i]
  {
    if langCodes != [] {
      var prefix := langCodes[..|langCodes| - 1];
      RunReportsEvery(files, prefix, template, table);
      var s := Run(files, prefix, template, table, {});
      ReportStep(s, template, langCodes[|langCodes| - 1], table);
      ReportsExtend(s.processed, Run(files, langCodes, template, table, {}).processed, prefix, langCodes[|langCodes| - 1]);
      assert prefix + [langCodes[|langCodes| - 1]] == langCodes;
    }
  }

  /** Appending a report for `last` to reports that follow `codes` gives
      reports that follow `codes + [last]`. */
  lemma ReportsExtend(before: seq<Processed>, after: seq<Processed>, codes: seq<string>, last: string)
    requires |before| == |codes| && forall i :: 0 <= i < |codes| ==> before[i].langCode == codes[i]
    requires |after| == |before| + 1 && after[..|before|] == before && after[|before|].langCode == last
    ensures |after| == |codes + [last]| && forall i :: 0 <= i < |after| ==> after[i].langCode == (codes + [last])[i]
  {
    forall i | 0 <= i < |after| ensures after[i].langCode == (codes + [last])[i] {
      if i < |before| {
        assert after[i] == after[..|before|][i];
      }
    }
  }

  lemma ReportStep(s: RunState, template: Json, langCode: string, table: Table)
    requires template.Obj?
    ensures var r := ProcessOne(s, template, langCode, table, {});
            |r.processed| == |s.processed| + 1 && r.processed[..|s.processed|] == s.processed &&
            r.processed[|s.processed|].langCode == langCode
  {
  }
}
