/**
 * The structure-preserving merge `updateNestedStructure` of lib/processor.js:
 * a depth-first walk over the template object in lock-step with a
 * language's existing object, choosing every leaf's new value, counting
 * updated and unchanged leaves, and finally rewriting the target object so
 * that it holds exactly the template's keys, in template order.
 */
module TreeMerge {
  import opened Wrappers
  import opened JsonValues
  import opened CsvTable

  /** The merged members of one object and the counters `updates` and `unchanged`. */
  datatype Outcome = Outcome(fields: seq<Field>, updatedCount: nat, unchangedCount: nat)

  /** The new value of one member and what it adds to the counters. */
  datatype Merged = Merged(value: Json, updatedCount: nat, unchangedCount: nat)

  /** The table's translation of a template leaf. Only string leaves can be
      found: the table's keys are strings. */
  function Translation(table: Table, langCode: string, leaf: Json): Option<string>
  {
    if leaf.Str? then Get(table, langCode, leaf.s) else None
  }

  /** `target[key] && typeof target[key] === "object" ? target[key] : {}`. */
  function NestedTarget(prior: Option<Json>): seq<Field>
  {
    if prior.Some? && prior.value.Obj? then prior.value.fields else []
  }

  /** A leaf that takes `value`: updated when it differs from the prior value
      (`!==`, and `undefined` differs from every value), unchanged otherwise. */
  function Count(value: Json, prior: Option<Json>): (m: Merged)
    ensures m.value == value
    ensures m.updatedCount + m.unchangedCount == 1
    ensures m.updatedCount == 1 <==> prior != Some(value)
  {
    if prior != Some(value) then Merged(value, 1, 0) else Merged(value, 0, 1)
  }

  /** The new value of one template member `value` whose prior value in the
      language's object is `prior`. */
  function MergeValue(value: Json, prior: Option<Json>, langCode: string, table: Table): (m: Merged)
    decreases value, 1, 0
    ensures !value.Obj? && (langCode == "zh" || Translation(table, langCode, value).Some?) ==>
      m.updatedCount + m.unchangedCount == 1 && (m.updatedCount == 1 <==> prior != Some(m.value))
    ensures !value.Obj? && !(langCode == "zh" || Translation(table, langCode, value).Some?) ==>
      m.updatedCount == 0 && m.unchangedCount == 0 && m.value == (if prior.Some? then prior.value else value)
  {
    if value.Obj? then
      var r := MergeUpTo(value, |value.fields|, NestedTarget(prior), langCode, table);
      Merged(Obj(r.fields), r.updatedCount, r.unchangedCount)
    else if langCode == "zh" then
      Count(value, prior)
    else if Translation(table, langCode, value).Some? then
      Count(Str(Translation(table, langCode, value).value), prior)
    else
      Merged(if prior.Some? then prior.value else value, 0, 0)
  }

  /** The merge of the first n members of the template object `source` into
      the target object's members `target`. */
  function MergeUpTo(source: Json, n: nat, target: seq<Field>, langCode: string, table: Table): (r: Outcome)
    requires source.Obj? && n <= |source.fields|
    decreases source, 0, n
    ensures |r.fields| == n
  {
    if n == 0 then Outcome([], 0, 0)
    else
      var r := MergeUpTo(source, n - 1, target, langCode, table);
      var key := source.fields[n - 1].0;
      var m := MergeValue(source.fields[n - 1].1, Lookup(target, key), langCode, table);
      Outcome(r.fields + [(key, m.value)], r.updatedCount + m.updatedCount, r.unchangedCount + m.unchangedCount)
  }

  /** The merge of a whole template object. */
  function Merge(source: Json, target: seq<Field>, langCode: string, table: Table): Outcome
    requires source.Obj?
  {
    MergeUpTo(source, |source.fields|, target, langCode, table)
  }

  /** The merged members carry the template's keys, in the template's order. */
  lemma {:induction false} MergeUpToKeys(source: Json, n: nat, target: seq<Field>, langCode: string, table: Table)
    requires source.Obj? && n <= |source.fields|
    ensures var r := MergeUpTo(source, n, target, langCode, table);
            forall i :: 0 <= i < n ==> r.fields[i].0 == source.fields[i].0
  {
    if n > 0 {
      MergeUpToKeys(source, n - 1, target, langCode, table);
    }
  }

  /** The i-th template member is smaller than the template, well formed, and
      its key is not yet among the merged members. */
  lemma NextMemberFits(source: Json, i: nat, target: seq<Field>, langCode: string, table: Table)
    requires source.Obj? && WellFormed(source) && i < |source.fields|
    ensures source.fields[i].1 < source && WellFormed(source.fields[i].1)
    ensures forall k :: 0 <= k < i ==> MergeUpTo(source, i, target, langCode, table).fields[k].0 != source.fields[i].0
  {
    assert source.fields[i] in source.fields;
    MergeUpToKeys(source, i, target, langCode, table);
  }

  /** The merged object has the template's distinct keys. */
  lemma MergeKeysDistinct(source: Json, target: seq<Field>, langCode: string, table: Table)
    requires source.Obj? && WellFormed(source)
    ensures DistinctKeys(Merge(source, target, langCode, table).fields)
  {
    MergeUpToKeys(source, |source.fields|, target, langCode, table);
  }

  /** Member i of a merged object: the template's key i, and as value the
      merged nested object, the template value (for "zh"), the table's
      translation, or else the prior value when the target has one and the
      template value when it has none. */
  lemma MergeAt(source: Json, target: seq<Field>, langCode: string, table: Table, i: nat)
    requires source.Obj? && i < |source.fields|
    ensures var r := Merge(source, target, langCode, table).fields;
            var key, value := source.fields[i].0, source.fields[i].1;
            var prior := Lookup(target, key);
            && r[i].0 == key
            && (value.Obj? ==> r[i].1 == Obj(Merge(value, NestedTarget(prior), langCode, table).fields))
            && (!value.Obj? && langCode == "zh" ==> r[i].1 == value)
            && (!value.Obj? && langCode != "zh" && Translation(table, langCode, value).Some? ==>
                  r[i].1 == Str(Translation(table, langCode, value).value))
            && (!value.Obj? && langCode != "zh" && Translation(table, langCode, value).None? ==>
                  r[i].1 == if prior.Some? then prior.value else value)
  {
    MergeUpToAt(source, |source.fields|, target, langCode, table, i);
  }

  lemma {:induction false} MergeUpToAt(source: Json, n: nat, target: seq<Field>, langCode: string, table: Table, i: nat)
    requires source.Obj? && i < n <= |source.fields|
    ensures MergeUpTo(source, n, target, langCode, table).fields[i]
         == (source.fields[i].0, MergeValue(source.fields[i].1, Lookup(target, source.fields[i].0), langCode, table).value)
  {
    if i < n - 1 {
      MergeUpToAt(source, n - 1, target, langCode, table, i);
    }
  }

  /** `result` has the shape of `template`: wherever the template has an
      object, the result has an object with exactly the same keys in the same
      order, and the same holds one level down. */
  predicate Shaped(template: Json, result: Json)
  {
    template.Obj? ==>
      && result.Obj?
      && |result.fields| == |template.fields|
      && forall i :: 0 <= i < |template.fields| ==>
           result.fields[i].0 == template.fields[i].0 && Shaped(template.fields[i].1, result.fields[i].1)
  }

  /** The merge keeps the template's keys and order at every nesting level
      and drops every key the template does not have. */
  lemma {:induction false} MergeShape(source: Json, target: seq<Field>, langCode: string, table: Table)
    requires source.Obj?
    ensures Shaped(source, Obj(Merge(source, target, langCode, table).fields))
  {
    var r := Merge(source, target, langCode, table).fields;
    forall i | 0 <= i < |source.fields|
      ensures r[i].0 == source.fields[i].0 && Shaped(source.fields[i].1, r[i].1)
    {
      MergeAt(source, target, langCode, table, i);
      var value := source.fields[i].1;
      if value.Obj? {
        assert source.fields[i] in source.fields;
        MergeShape(value, NestedTarget(Lookup(target, source.fields[i].0)), langCode, table);
      }
    }
  }

  /** For the source language every leaf takes the template's value, so the
      merged object is the template itself, whatever the target held. */
  lemma {:induction false} ZhMergeIsTemplate(source: Json, target: seq<Field>, table: Table)
    requires source.Obj?
    ensures Obj(Merge(source, target, "zh", table).fields) == source
  {
    var r := Merge(source, target, "zh", table).fields;
    forall i | 0 <= i < |source.fields|
      ensures r[i] == source.fields[i]
    {
      MergeAt(source, target, "zh", table, i);
      var value := source.fields[i].1;
      if value.Obj? {
        assert source.fields[i] in source.fields;
        ZhMergeIsTemplate(value, NestedTarget(Lookup(target, source.fields[i].0)), table);
      }
    }
    assert r == source.fields;
  }

  /** `result` is `template` with every string leaf that the table
      translates replaced by its translation and every other leaf kept. */
  predicate TranslatedFrom(template: Json, result: Json, langCode: string, table: Table)
  {
    if template.Obj? then
      && result.Obj?
      && |result.fields| == |template.fields|
      && forall i :: 0 <= i < |template.fields| ==>
           result.fields[i].0 == template.fields[i].0 &&
           TranslatedFrom(template.fields[i].1, result.fields[i].1, langCode, table)
    else if Translation(table, langCode, template).Some? then
      result == Str(Translation(table, langCode, template).value)
    else
      result == template
  }

  /** A missing or unreadable language file starts as a copy of the
      template, so the merge yields the template with its translated leaves
      replaced and its untranslated leaves left as source text. */
  lemma {:induction false} NewFileIsTranslatedTemplate(source: Json, langCode: string, table: Table)
    requires source.Obj? && WellFormed(source) && langCode != "zh"
    ensures TranslatedFrom(source, Obj(Merge(source, source.fields, langCode, table).fields), langCode, table)
  {
    var r := Merge(source, source.fields, langCode, table).fields;
    forall i | 0 <= i < |source.fields|
      ensures r[i].0 == source.fields[i].0 && TranslatedFrom(source.fields[i].1, r[i].1, langCode, table)
    {
      MergeAt(source, source.fields, langCode, table, i);
      LookupDistinct(source.fields, i);
      var value := source.fields[i].1;
      if value.Obj? {
        assert source.fields[i] in source.fields;
        NewFileIsTranslatedTemplate(value, langCode, table);
      }
    }
  }

  /** Some leaf of `value` takes a value other than its own when merged:
      a translated leaf whose translation differs from its text. For "zh"
      no leaf does. */
  predicate ChangesWhenCopied(value: Json, langCode: string, table: Table)
  {
    if value.Obj? then
      exists i :: 0 <= i < |value.fields| && ChangesWhenCopied(value.fields[i].1, langCode, table)
    else
      langCode != "zh" && Translation(table, langCode, value).Some? && Str(Translation(table, langCode, value).value) != value
  }

  /** Merging the template into a copy of itself, as is done for a missing
      or unreadable language file, updates some leaf exactly when some
      leaf's translation differs from its text. */
  lemma CopyUpdates(source: Json, langCode: string, table: Table)
    requires source.Obj? && WellFormed(source)
    ensures Merge(source, source.fields, langCode, table).updatedCount > 0 <==> ChangesWhenCopied(source, langCode, table)
  {
    CopyUpdatesUpTo(source, |source.fields|, langCode, table);
  }

  lemma {:induction false} CopyUpdatesUpTo(source: Json, n: nat, langCode: string, table: Table)
    requires source.Obj? && WellFormed(source) && n <= |source.fields|
    decreases source, 0, n
    ensures MergeUpTo(source, n, source.fields, langCode, table).updatedCount > 0 <==>
            exists i :: 0 <= i < n && ChangesWhenCopied(source.fields[i].1, langCode, table)
  {
    if n > 0 {
      CopyUpdatesUpTo(source, n - 1, langCode, table);
      LookupDistinct(source.fields, n - 1);
      ChildWellFormed(source, n - 1);
      CopyUpdatesValue(source.fields[n - 1].1, langCode, table);
    }
  }

  lemma {:induction false} CopyUpdatesValue(value: Json, langCode: string, table: Table)
    requires WellFormed(value)
    decreases value, 1
    ensures MergeValue(value, Some(value), langCode, table).updatedCount > 0 <==> ChangesWhenCopied(value, langCode, table)
  {
    if value.Obj? {
      CopyUpdatesUpTo(value, |value.fields|, langCode, table);
    }
  }

  /** Merging the merged object again changes nothing: no leaf is updated,
      every leaf counted the first time is counted unchanged, and the
      object is the same. */
  lemma MergeIdempotent(source: Json, target: seq<Field>, langCode: string, table: Table)
    requires source.Obj? && WellFormed(source)
    ensures var r := Merge(source, target, langCode, table);
            Merge(source, r.fields, langCode, table) == Outcome(r.fields, 0, r.updatedCount + r.unchangedCount)
  {
    var full := Merge(source, target, langCode, table).fields;
    forall i | 0 <= i < |source.fields|
      ensures Lookup(full, source.fields[i].0)
           == Some(MergeValue(source.fields[i].1, Lookup(target, source.fields[i].0), langCode, table).value)
    {
      LookupMerged(source, target, langCode, table, i);
    }
    IdempotentUpTo(source, |source.fields|, target, full, langCode, table);
  }

  /** Merging the first n members again into an object `full` that already
      holds their merged values changes nothing. */
  lemma {:induction false} IdempotentUpTo(source: Json, n: nat, target: seq<Field>, full: seq<Field>, langCode: string, table: Table)
    requires source.Obj? && WellFormed(source) && n <= |source.fields|
    requires forall i :: 0 <= i < n ==>
      Lookup(full, source.fields[i].0) == Some(MergeValue(source.fields[i].1, Lookup(target, source.fields[i].0), langCode, table).value)
    decreases source, 0, n
    ensures var rn := MergeUpTo(source, n, target, langCode, table);
            MergeUpTo(source, n, full, langCode, table) == Outcome(rn.fields, 0, rn.updatedCount + rn.unchangedCount)
  {
    if n > 0 {
      IdempotentUpTo(source, n - 1, target, full, langCode, table);
      var key, value := source.fields[n - 1].0, source.fields[n - 1].1;
      ChildWellFormed(source, n - 1);
      IdempotentValue(value, Lookup(target, key), langCode, table);
    }
  }

  lemma {:induction false} IdempotentValue(value: Json, prior: Option<Json>, langCode: string, table: Table)
    requires WellFormed(value)
    decreases value, 1, 0
    ensures var m := MergeValue(value, prior, langCode, table);
            MergeValue(value, Some(m.value), langCode, table) == Merged(m.value, 0, m.updatedCount + m.unchangedCount)
  {
    if value.Obj? {
      var nested := NestedTarget(prior);
      var r := Merge(value, nested, langCode, table);
      forall i | 0 <= i < |value.fields|
        ensures Lookup(r.fields, value.fields[i].0)
             == Some(MergeValue(value.fields[i].1, Lookup(nested, value.fields[i].0), langCode, table).value)
      {
        LookupMerged(value, nested, langCode, table, i);
      }
      IdempotentUpTo(value, |value.fields|, nested, r.fields, langCode, table);
    }
  }

  /** A child of a well-formed object is smaller and well formed. */
  lemma ChildWellFormed(source: Json, i: nat)
    requires source.Obj? && WellFormed(source) && i < |source.fields|
    ensures source.fields[i].1 < source && WellFormed(source.fields[i].1)
  {
  }

  /** Looking a template key up in the merged object finds its merged value. */
  lemma LookupMerged(source: Json, target: seq<Field>, langCode: string, table: Table, i: nat)
    requires source.Obj? && WellFormed(source) && i < |source.fields|
    ensures Lookup(Merge(source, target, langCode, table).fields, source.fields[i].0)
         == Some(MergeValue(source.fields[i].1, Lookup(target, source.fields[i].0), langCode, table).value)
  {
    MergeKeysDistinct(source, target, langCode, table);
    MergeUpToAt(source, |source.fields|, target, langCode, table, i);
    LookupDistinct(Merge(source, target, langCode, table).fields, i);
  }

  /** Number of leaves of `value` the merge counts: all of them for "zh",
      otherwise only string leaves that the table translates. */
  function CountedLeaves(value: Json, langCode: string, table: Table): nat
    decreases value, 1, 0
  {
    if value.Obj? then CountedLeavesUpTo(value, |value.fields|, langCode, table)
    else if langCode == "zh" || Translation(table, langCode, value).Some? then 1
    else 0
  }

  function CountedLeavesUpTo(source: Json, n: nat, langCode: string, table: Table): nat
    requires source.Obj? && n <= |source.fields|
    decreases source, 0, n
  {
    if n == 0 then 0
    else CountedLeavesUpTo(source, n - 1, langCode, table) + CountedLeaves(source.fields[n - 1].1, langCode, table)
  }

  /** Every counted leaf is either updated or unchanged, untranslated leaves
      are neither, and nested counts add up into the parent's: the two
      counters sum to the counted leaves, whatever the target held. */
  lemma MergeCounts(source: Json, target: seq<Field>, langCode: string, table: Table)
    requires source.Obj?
    ensures var r := Merge(source, target, langCode, table);
            r.updatedCount + r.unchangedCount == CountedLeaves(source, langCode, table)
  {
    CountsUpTo(source, |source.fields|, target, langCode, table);
  }

  lemma {:induction false} CountsUpTo(source: Json, n: nat, target: seq<Field>, langCode: string, table: Table)
    requires source.Obj? && n <= |source.fields|
    decreases source, 0, n
    ensures var r := MergeUpTo(source, n, target, langCode, table);
            r.updatedCount + r.unchangedCount == CountedLeavesUpTo(source, n, langCode, table)
  {
    if n > 0 {
      CountsUpTo(source, n - 1, target, langCode, table);
      var value := source.fields[n - 1].1;
      assert source.fields[n - 1] in source.fields;
      CountsValue(value, Lookup(target, source.fields[n - 1].0), langCode, table);
    }
  }

  lemma {:induction false} CountsValue(value: Json, prior: Option<Json>, langCode: string, table: Table)
    decreases value, 1, 0
    ensures var m := MergeValue(value, prior, langCode, table);
            m.updatedCount + m.unchangedCount == CountedLeaves(value, langCode, table)
  {
    if value.Obj? {
      CountsUpTo(value, |value.fields|, NestedTarget(prior), langCode, table);
    }
  }

  /** A language's object, rewritten in place by the merge. */
  class JsonObject {
    var fields: seq<Field>

    constructor (fields: seq<Field>)
      ensures this.fields == fields
    {
      this.fields := fields;
    }

    /** `updateNestedStructure(source, this, langCode)`: afterwards this object
        holds the merge of `source` into its former members, and the
        counters returned are the merge's. */
    method UpdateNestedStructure(source: Json, langCode: string, table: Table)
      returns (updatedCount: nat, unchangedCount: nat)
      requires source.Obj? && WellFormed(source)
      modifies this
      decreases source, 2
      ensures Merge(source, old(fields), langCode, table) == Outcome(fields, updatedCount, unchangedCount)
    {
      var newTarget;
      newTarget, updatedCount, unchangedCount := MergeMembers(source, fields, langCode, table);
      MergeKeysDistinct(source, old(fields), langCode, table);
      ReplaceMembers(newTarget);
    }

    /** The loop over the template's keys: builds the new object `newTarget`
        in template order and counts the updated and unchanged leaves. */
    static method MergeMembers(source: Json, target: seq<Field>, langCode: string, table: Table)
      returns (newTarget: seq<Field>, updates: nat, kept: nat)
      requires source.Obj? && WellFormed(source)
      decreases source, 1
      ensures Merge(source, target, langCode, table) == Outcome(newTarget, updates, kept)
    {
      updates, kept := 0, 0;
      newTarget := [];
      var i := 0;
      while i < |source.fields|
        invariant 0 <= i <= |source.fields|
        invariant MergeUpTo(source, i, target, langCode, table) == Outcome(newTarget, updates, kept)
      {
        var key := source.fields[i].0;
        var value := source.fields[i].1;
        NextMemberFits(source, i, target, langCode, table);
        var m := MergeMember(value, Lookup(target, key), langCode, table);
        newTarget := Assign(newTarget, key, m.value);
        updates, kept := updates + m.updatedCount, kept + m.unchangedCount;
        i := i + 1;
      }
    }

    /** The body of the loop over the template's keys for one key whose
        template value is `value` and whose value in the target is `prior`. */
    static method MergeMember(value: Json, prior: Option<Json>, langCode: string, table: Table)
      returns (m: Merged)
      requires WellFormed(value)
      decreases value, 3
      ensures m == MergeValue(value, prior, langCode, table)
    {
      if value.Obj? {
        // the nested object is merged on its own, then copied into the new object
        var existingNestedObj := new JsonObject(NestedTarget(prior));
        var u, c := existingNestedObj.UpdateNestedStructure(value, langCode, table);
        m := Merged(Obj(existingNestedObj.fields), u, c);
      } else if langCode == "zh" {
        if prior != Some(value) {
          m := Merged(value, 1, 0);
        } else {
          m := Merged(value, 0, 1);
        }
      } else if Translation(table, langCode, value).Some? {
        var translatedText := Str(Translation(table, langCode, value).value);
        if prior != Some(translatedText) {
          m := Merged(translatedText, 1, 0);
        } else {
          m := Merged(translatedText, 0, 1);
        }
      } else {
        // no translation: keep the prior value, or take the template's
        m := Merged(if prior.Some? then prior.value else value, 0, 0);
      }
    }

    /** Deletes every key of this object, then assigns `newFields`' members
        in their order. */
    method ReplaceMembers(newFields: seq<Field>)
      requires DistinctKeys(newFields)
      modifies this
      ensures fields == newFields
    {
      while fields != []
        decreases |fields|
      {
        fields := Remove(fields, fields[0].0);
      }

      var m := 0;
      while m < |newFields|
        invariant 0 <= m <= |newFields|
        invariant fields == newFields[..m]
      {
        assert forall k :: 0 <= k < m ==> fields[k].0 != newFields[m].0;
        fields := Assign(fields, newFields[m].0, newFields[m].1);
        assert newFields[..m + 1] == newFields[..m] + [newFields[m]];
        m := m + 1;
      }
      assert newFields[..m] == newFields;
    }
  }
}
