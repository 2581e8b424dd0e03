/** The form-level steps of preprocessing/prom_pipeline.py: the file-type
    dispatch of `process_file` and the duplicate filter `filter_duplicates`. */
module PromPipeline {
  import opened Text
  import opened Models

  // ---------------------------------------------------------------------
  // process_file

  /** `file_path.lower().endswith('.docx')`. */
  predicate IsDocx(path: string) { EndsWith(Lower(path), ".docx") }

  /** `process_file(path)`: a `.docx` path is handed to the extractor
      (a parameter here); any other path, and a path the extractor returns
      nothing for, comes back as a failure. Exactly one half of the pair is
      set: the form, or the path that failed. */
  function ProcessFile(path: string, extract: string -> Option<PromForm>): (r: (Option<PromForm>, Option<string>))
    ensures r.0.Some? <==> r.1.None?
    ensures r.1.Some? ==> r.1.value == path
    ensures r.0.Some? <==> IsDocx(path) && extract(path).Some?
    ensures r.0.Some? ==> r.0 == extract(path)
  {
    var prom := if IsDocx(path) then extract(path) else None;
    if prom.None? then (None, Some(path)) else (prom, None)
  }

  // ---------------------------------------------------------------------
  // filter_duplicates

  type Key = (string, string, string)

  /** The key a form is deduplicated on: date, requestor and title, each
      lower-cased; a form missing one of them has no key. */
  function KeyOf(f: PromForm): (k: Option<Key>)
    ensures k.Some? <==> f.date.Some? && f.requestor.Some? && f.requestTitle.Some?
  {
    if f.date.None? || f.requestor.None? || f.requestTitle.None? then None
    else Some((Lower(f.date.value), Lower(f.requestor.value), Lower(f.requestTitle.value)))
  }

  /** The keys of the forms in `forms` that have one. */
  function Keys(forms: seq<PromForm>): set<Key> {
    set f | f in forms && KeyOf(f).Some? :: KeyOf(f).value
  }

  /** The forms `filter_duplicates(forms)` keeps: it reads the forms in
      order and keeps each one that has a key not kept before. */
  function Unique(forms: seq<PromForm>): seq<PromForm>
    decreases |forms|
  {
    if forms == [] then []
    else
      var before := Unique(forms[..|forms| - 1]);
      var f := forms[|forms| - 1];
      if KeyOf(f).None? || KeyOf(f).value in Keys(before) then before else before + [f]
  }

  lemma KeysAppend(forms: seq<PromForm>, f: PromForm)
    ensures Keys(forms + [f]) == Keys(forms) + (if KeyOf(f).Some? then {KeyOf(f).value} else {})
  {
    assert forall g :: g in forms + [f] <==> g in forms || g == f;
  }

  /** `filter_duplicates`: the loop with its `seen` set and `unique` list. */
  method FilterDuplicates(forms: seq<PromForm>) returns (unique: seq<PromForm>)
    ensures unique == Unique(forms)
  {
    var seen: set<Key> := {};
    unique := [];
    for i := 0 to |forms|
      invariant unique == Unique(forms[..i])
      invariant seen == Keys(unique)
    {
      assert forms[..i + 1][..i] == forms[..i];
      var prom := forms[i];
      if prom.date.None? || prom.requestor.None? || prom.requestTitle.None? {
        continue;
      }
      var key := (Lower(prom.date.value), Lower(prom.requestor.value), Lower(prom.requestTitle.value));
      if key !in seen {
        KeysAppend(unique, prom);
        seen := seen + {key};
        unique := unique + [prom];
      }
    }
    assert forms[..|forms|] == forms;
  }

  /** `a` is `b` with some elements left out, the rest in their order. */
  predicate IsSubsequence<T(==)>(a: seq<T>, b: seq<T>)
    decreases |b|
  {
    || a == []
    || (&& b != []
        && (|| (a[|a| - 1] == b[|b| - 1] && IsSubsequence(a[..|a| - 1], b[..|b| - 1]))
            || IsSubsequence(a, b[..|b| - 1])))
  }

  /** The kept forms are a subsequence of the input, in the input's order. */
  lemma {:induction false} UniqueIsSubsequence(forms: seq<PromForm>)
    ensures IsSubsequence(Unique(forms), forms)
    decreases |forms|
  {
    if forms != [] {
      var init := forms[..|forms| - 1];
      UniqueIsSubsequence(init);
      var before := Unique(init);
      if Unique(forms) == before {
        if before != [] {
          assert IsSubsequence(before, init);
        }
      } else {
        assert Unique(forms) == before + [forms[|forms| - 1]];
        assert (before + [forms[|forms| - 1]])[..|before|] == before;
      }
    }
  }

  /** Every kept form has a date, a requestor and a title, and no two kept
      forms share a key. */
  lemma {:induction false} UniqueKeysDistinct(forms: seq<PromForm>)
    ensures forall f | f in Unique(forms) :: KeyOf(f).Some?
    ensures forall i, j | 0 <= i < j < |Unique(forms)| :: KeyOf(Unique(forms)[i]) != KeyOf(Unique(forms)[j])
    decreases |forms|
  {
    if forms != [] {
      var init := forms[..|forms| - 1];
      UniqueKeysDistinct(init);
      var before := Unique(init);
      var f := forms[|forms| - 1];
      if Unique(forms) != before {
        var r := before + [f];
        assert Unique(forms) == r;
        forall i, j | 0 <= i < j < |r|
          ensures KeyOf(r[i]) != KeyOf(r[j])
        {
          if j == |before| {
            assert r[i] in before;
          }
        }
      }
    }
  }

  /** The kept forms carry exactly the keys of the input: every form with a
      date, a requestor and a title has its key represented. */
  lemma {:induction false} UniqueKeepsKeys(forms: seq<PromForm>)
    ensures Keys(Unique(forms)) == Keys(forms)
    decreases |forms|
  {
    if forms != [] {
      var init := forms[..|forms| - 1];
      var f := forms[|forms| - 1];
      UniqueKeepsKeys(init);
      assert init + [f] == forms;
      KeysAppend(init, f);
      KeysAppend(Unique(init), f);
    }
  }

  /** Form `i` is kept exactly when it has a key that no earlier form has:
      the first occurrence of a key is the one kept, later ones are not. */
  lemma FirstOccurrenceKept(forms: seq<PromForm>, i: nat)
    requires i < |forms|
    ensures var k := KeyOf(forms[i]);
      Unique(forms[..i + 1]) ==
        if k.Some? && k.value !in Keys(forms[..i]) then Unique(forms[..i]) + [forms[i]] else Unique(forms[..i])
  {
    assert forms[..i + 1][..i] == forms[..i];
    UniqueKeepsKeys(forms[..i]);
  }

  /** A list of complete forms with distinct keys passes unchanged. */
  lemma {:induction false} UniqueOfDistinct(forms: seq<PromForm>)
    requires forall f | f in forms :: KeyOf(f).Some?
    requires forall i, j | 0 <= i < j < |forms| :: KeyOf(forms[i]) != KeyOf(forms[j])
    ensures Unique(forms) == forms
    decreases |forms|
  {
    if forms != [] {
      var init := forms[..|forms| - 1];
      var f := forms[|forms| - 1];
      UniqueOfDistinct(init);
      assert KeyOf(f).value !in Keys(init);
      assert init + [f] == forms;
    }
  }

  /** Filtering an already filtered list returns it unchanged. */
  lemma FilterIsIdempotent(forms: seq<PromForm>)
    ensures Unique(Unique(forms)) == Unique(forms)
  {
    UniqueKeysDistinct(forms);
    UniqueOfDistinct(Unique(forms));
  }
}
