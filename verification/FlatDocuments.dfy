/** Flat objects of strings are documents: their texts, readable cuts and
    previews are the same by both definitions. */
module FlatDocuments {
  import opened JsonText
  import opened FlatFields
  import opened FlatCuts
  import opened Documents
  import DocumentPreviews

  function EntriesOf(fs: seq<Field>): Entries {
    if fs == [] then NoEntries else MoreEntries(fs[0].key, Str(fs[0].value), EntriesOf(fs[1..]))
  }

  lemma {:induction false} SameText(fs: seq<Field>)
    ensures EntriesText(EntriesOf(fs)) == FieldsText(fs) && ValidEntries(EntriesOf(fs))
    ensures Text(Obj(EntriesOf(fs))) == ObjectText(fs)
    decreases |fs|
  {
    hide Quoted;
    if fs != [] {
      SameText(fs[1..]);
      assert KeyText(fs[0].key) + Text(Str(fs[0].value)) == FieldText(fs[0]);
    }
  }

  /** One field, as a member under way. */
  lemma SameField(f: Field, k: nat)
    requires 0 < k <= |FieldText(f)|
    ensures var es := MoreEntries(f.key, Str(f.value), NoEntries);
            && EntriesText(es) == FieldText(f)
            && (DocumentPreviews.EntriesRead(es, k) <==> FieldCutReads(f, k))
            && DocumentPreviews.PreviewEntries(es, k) == [CutMember(f, k)]
  {
    hide Quoted, Utf16, WholeChars, IntoEscape;
    var es := MoreEntries(f.key, Str(f.value), NoEntries);
    assert KeyText(f.key) + Text(Str(f.value)) == FieldText(f);
    assert |FieldText(f)| == |Quoted(f.key)| + 1 + |Quoted(f.value)|;
  }

  /** The two definitions agree on every cut of the members. */
  lemma {:induction false} SameCut(fs: seq<Field>, k: nat)
    requires 0 < k <= |FieldsText(fs)|
    ensures EntriesText(EntriesOf(fs)) == FieldsText(fs)
    ensures DocumentPreviews.EntriesRead(EntriesOf(fs), k) <==> CutReads(fs, k)
    ensures DocumentPreviews.PreviewEntries(EntriesOf(fs), k) == Preview(fs, k)
    decreases |fs|
  {
    hide FieldCutReads, CutMember, Utf16, WholeChars, IntoEscape, Quoted;
    SameText(fs);
    var w := |FieldText(fs[0])|;
    assert w == |KeyText(fs[0].key)| + |Text(Str(fs[0].value))|;
    if k <= w {
      SameField(fs[0], k);
      FirstOnly(fs, k);
    } else {
      SameText(fs[1..]);
      WholeMember(fs[0]);
      if k > w + 1 {
        SameCut(fs[1..], k - w - 1);
      }
    }
  }

  /** Within the first member the later ones do not matter. */
  lemma FirstOnly(fs: seq<Field>, k: nat)
    requires fs != [] && 0 < k <= |FieldText(fs[0])| && k <= |EntriesText(EntriesOf(fs))|
    requires |FieldText(fs[0])| == |KeyText(fs[0].key)| + |Text(Str(fs[0].value))|
    ensures var es := MoreEntries(fs[0].key, Str(fs[0].value), NoEntries);
            && k <= |EntriesText(es)|
            && DocumentPreviews.EntriesRead(EntriesOf(fs), k) == DocumentPreviews.EntriesRead(es, k)
            && DocumentPreviews.PreviewEntries(EntriesOf(fs), k) == DocumentPreviews.PreviewEntries(es, k)
  {
    hide FieldText, KeyText, Text, Utf16, WholeChars, IntoEscape, Quoted;
  }
}
