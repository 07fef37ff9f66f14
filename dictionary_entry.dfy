/**
 * createDictionaryEntry (create.mjs): renders one parsed record as an `<idx:entry>` of
 * the dictionary's content document. Each section is decided by JavaScript truthiness
 * or by `Array.isArray`; three errors can be thrown on unexpected shapes (calling the
 * missing `filter` of a non-array, reading `word` of `null`, and indexing `undefined`
 * in createNestedList), and then the caller writes nothing for the record.
 */
module DictionaryEntry {
  import opened Wrappers
  import opened Js
  import opened Sequences
  import SenseOutline

  /** An element of `translations`. */
  datatype Translation = Translation(word: JsText)

  /** An element of `sounds`; `tags` is `None` when the field is not an array. */
  datatype Sound = Sound(ipa: JsText, tags: Option<seq<string>>)

  /** An element of `forms`; `tags` is `None` when the field is not an array. */
  datatype Form = Form(form: JsText, tags: Option<seq<string>>)

  /** An element of `synonyms`. */
  datatype Synonym = Synonym(word: JsText)

  /** An element of `senses`: the dataset's sense object, an array in its place, or anything else. */
  datatype RawSense = SenseObject(glosses: seq<string>) | SenseArray(elements: seq<string>) | SenseOther

  /**
   * A field that the renderer expects to be an array: either an array, or some other
   * value, of which only its truthiness matters.
   */
  datatype Field<+T> = NotArray(truthy: bool) | Array(elements: seq<T>)

  /**
   * A parsed record. Array elements are `Option`s where the renderer meets `null`
   * elements: `None` is a `null` element.
   */
  datatype Definition = Definition(
    word: JsText,
    lang: JsText,
    langCode: JsText,
    pos: JsText,
    etymologyText: JsText,
    translations: Field<Option<Translation>>,
    sounds: Field<Option<Sound>>,
    senses: Field<RawSense>,
    forms: Field<Option<Form>>,
    synonyms: Field<Option<Synonym>>)

  const EntryStart: string := "<idx:entry name=\"default\" scriptable=\"yes\" spell=\"yes\">\n      <dt>\n        <idx:orth>"
  const EntryEnd: string := "</idx:entry>"
  const InflectionsStart: string := "<idx:infl>"
  const InflectionsEnd: string := "</idx:infl>"

  // ---------------------------------------------------------------------------
  // Inflections: `<idx:infl>` with one `<idx:iform>` per translation

  /** `translation => translation.word` used as a filter, on a non-null element. */
  predicate HasWord(t: Option<Translation>)
  {
    t.Some? && Truthy(t.value.word)
  }

  /** `<idx:iform value="${translation.word}" />` */
  function Iform(t: Option<Translation>): (line: string)
    ensures HasWord(t) ==> line == "<idx:iform value=\"" + t.value.word.s + "\" />"
    ensures StartsWith(line, "<idx:iform value=\"") && EndsWith(line, "\" />")
  {
    var line := "<idx:iform value=\"" + (if t.Some? then Interpolate(t.value.word) else "") + "\" />";
    assert line[..|"<idx:iform value=\""|] == "<idx:iform value=\"";
    line
  }

  /** The `<idx:iform>` lines for the translations `ts`. */
  function InflectionLines(ts: seq<Option<Translation>>): seq<string>
  {
    FilterMap(ts, HasWord, Iform)
  }

  /** `translations?.filter(…)` throws when `translations` is truthy but has no `filter`, or holds `null`. */
  predicate TranslationsThrow(translations: Field<Option<Translation>>)
  {
    translations == NotArray(true) || (translations.Array? && None in translations.elements)
  }

  /**
   * The inflection block inside `<idx:orth>`: present exactly when `translations` is
   * truthy (an empty array too), and then delimited by `<idx:infl>` and `</idx:infl>`.
   */
  function Inflections(translations: Field<Option<Translation>>): (r: Result<string>)
    ensures r.Throw? <==> TranslationsThrow(translations)
    ensures r.Ok? ==> (r.value == "" <==> translations == NotArray(false))
    ensures r.Ok? && r.value != "" ==> StartsWith(r.value, InflectionsStart) && EndsWith(r.value, InflectionsEnd)
    ensures translations == Array([]) ==> r == Ok(InflectionsStart + InflectionsEnd)
  {
    match translations
    case NotArray(truthy) => if truthy then Throw(NotAFunction) else Ok("")
    case Array(ts) =>
      if None in ts then Throw(ReadOfNull)
      else
        var block := InflectionsStart + Join(InflectionLines(ts), "\n") + InflectionsEnd;
        assert block[..|InflectionsStart|] == InflectionsStart;
        assert block[|block| - |InflectionsEnd|..] == InflectionsEnd;
        Ok(block)
  }

  /**
   * The lines of the block: one `<idx:iform value="w" />` per translation whose `word`
   * is truthy, in the order of the translations, and no other line.
   */
  lemma InflectionsInOrder(ts: seq<Option<Translation>>)
    requires None !in ts
    ensures Inflections(Array(ts)) == Ok(InflectionsStart + Join(InflectionLines(ts), "\n") + InflectionsEnd)
    ensures var ps := Positions(ts, HasWord);
      && (forall i :: 0 <= i < |ts| ==> (i in ps <==> ts[i].value.word.Text? && ts[i].value.word.s != ""))
      && (forall k, l :: 0 <= k < l < |ps| ==> ps[k] < ps[l])
      && |InflectionLines(ts)| == |ps|
      && forall k :: 0 <= k < |ps| ==> InflectionLines(ts)[k] == "<idx:iform value=\"" + ts[ps[k]].value.word.s + "\" />"
  {
    var ps := Positions(ts, HasWord);
    FilterMapAtPositions(ts, HasWord, Iform);
    forall i | 0 <= i < |ts|
      ensures i in ps <==> ts[i].value.word.Text? && ts[i].value.word.s != ""
    {
      assert ts[i] in ts;
    }
  }

  // ---------------------------------------------------------------------------
  // Pronunciation: ` <phonetic>…</phonetic>`

  /** `sound && sound.ipa` */
  predicate HasIpa(s: Option<Sound>)
  {
    s.Some? && Truthy(s.value.ipa)
  }

  /** `${tags ? `<i>${tags.join(', ')}</i>` : ''} ${sound.ipa}` */
  function SoundText(s: Option<Sound>): (text: string)
    ensures s.Some? ==> EndsWith(text, " " + Interpolate(s.value.ipa))
    ensures s.Some? && s.value.tags.None? ==> text == " " + Interpolate(s.value.ipa)
    ensures s.Some? && s.value.tags.Some? ==> StartsWith(text, "<i>" + Join(s.value.tags.value, ", ") + "</i>")
    ensures s.Some? && s.value.tags.Some? ==>
      |text| == |"<i>" + Join(s.value.tags.value, ", ") + "</i>"| + |" " + Interpolate(s.value.ipa)|
  {
    match s
    case None => ""
    case Some(sound) =>
      var note := match sound.tags case Some(tags) => "<i>" + Join(tags, ", ") + "</i>" case None => "";
      var text := note + " " + Interpolate(sound.ipa);
      assert text[..|note|] == note;
      text
  }

  /**
   * The pronunciation after `<idx:orth>`: present exactly when `sounds` is a non-empty
   * array (even if no sound has an IPA), as a `<phonetic>` element.
   */
  function Phonetic(sounds: Field<Option<Sound>>): (section: string)
    ensures section != "" <==> sounds.Array? && |sounds.elements| > 0
    ensures section != "" ==> StartsWith(section, " <phonetic>") && EndsWith(section, "</phonetic>")
  {
    if sounds.Array? && |sounds.elements| > 0
    then " <phonetic>" + Join(FilterMap(sounds.elements, HasIpa, SoundText), ", ") + "</phonetic>"
    else ""
  }

  // ---------------------------------------------------------------------------
  // Part of speech, etymology, forms and synonyms

  /** The part-of-speech note at the start of `<dd>`: present exactly when `pos` is truthy. */
  function PartOfSpeech(def: Definition): (note: string)
    ensures note != "" <==> Truthy(def.pos)
    ensures note != "" ==> StartsWith(note, "<i>" + Interpolate(def.lang) + " ") && EndsWith(note, "</i> ")
  {
    if Truthy(def.pos)
    then
      var note := "<i>" + Interpolate(def.lang) + " " + Interpolate(def.pos) + "</i> ";
      assert note[..|"<i>" + Interpolate(def.lang) + " "|] == "<i>" + Interpolate(def.lang) + " ";
      note
    else ""
  }

  /** The etymology line: present exactly when `etymology_text` is truthy. */
  function Etymology(text: JsText): (line: string)
    ensures line != "" <==> Truthy(text)
    ensures line != "" ==> StartsWith(line, "<i>Etymology</i>: ") && EndsWith(line, "<br />")
  {
    if Truthy(text) then "<i>Etymology</i>: " + Interpolate(text) + "<br />" else ""
  }

  /** `${form && form.form ? form.form : ''} (${form && Array.isArray(form.tags) ? form.tags.join(', ') : ''})` */
  function FormText(f: Option<Form>): (text: string)
    ensures f.None? ==> text == " ()"
    ensures f.Some? && Truthy(f.value.form) ==> StartsWith(text, f.value.form.s + " (")
    ensures f.Some? && !Truthy(f.value.form) ==> StartsWith(text, " (")
    ensures f.Some? && f.value.tags.Some? ==> EndsWith(text, " (" + Join(f.value.tags.value, ", ") + ")")
    ensures f.Some? && f.value.tags.None? ==> EndsWith(text, " ()")
    ensures f.Some? ==>
      |text| == (if Truthy(f.value.form) then |f.value.form.s| else 0)
              + (if f.value.tags.Some? then |Join(f.value.tags.value, ", ")| else 0) + 3
  {
    var name := if f.Some? && Truthy(f.value.form) then Interpolate(f.value.form) else "";
    var tags := if f.Some? && f.value.tags.Some? then Join(f.value.tags.value, ", ") else "";
    var text := name + " (" + tags + ")";
    assert text[..|name + " ("|] == name + " (";
    assert text[|name|..] == " (" + tags + ")";
    text
  }

  /** The forms line: present exactly when `forms` is a non-empty array. */
  function Forms(forms: Field<Option<Form>>): (line: string)
    ensures line != "" <==> forms.Array? && |forms.elements| > 0
    ensures line != "" ==> StartsWith(line, "<i>Forms:</i> ") && EndsWith(line, "<br />")
  {
    if forms.Array? && |forms.elements| > 0
    then "<i>Forms:</i> " + Join(MapEach(forms.elements, FormText), ", ") + "<br />"
    else ""
  }

  /** `syn && syn.word ? syn.word : ''` */
  function SynonymText(s: Option<Synonym>): (text: string)
    ensures text != "" <==> s.Some? && Truthy(s.value.word)
    ensures text != "" ==> text == s.value.word.s
  {
    if s.Some? && Truthy(s.value.word) then Interpolate(s.value.word) else ""
  }

  /** The synonyms line: present exactly when `synonyms` is a non-empty array. */
  function Synonyms(synonyms: Field<Option<Synonym>>): (line: string)
    ensures line != "" <==> synonyms.Array? && |synonyms.elements| > 0
    ensures line != "" ==> StartsWith(line, "<i>Synonyms:</i> ") && EndsWith(line, "<br />")
  {
    if synonyms.Array? && |synonyms.elements| > 0
    then "<i>Synonyms:</i> " + Join(MapEach(synonyms.elements, SynonymText), ", ") + "<br />"
    else ""
  }

  // ---------------------------------------------------------------------------
  // Senses

  /**
   * `Array.isArray(sense) ? sense.glosses : []`: a sense that is an array yields its
   * `glosses` property, which an array does not have (`undefined`); any other sense,
   * the dataset's sense objects included, yields an empty array.
   */
  function FormatSense(sense: RawSense): (formatted: Option<SenseOutline.Sense>)
    ensures formatted.None? <==> sense.SenseArray?
    ensures formatted.Some? ==> formatted.value == []
  {
    match sense
    case SenseArray(_) => None
    case _ => Some([])
  }

  predicate FirstSenseIsArray(senses: Field<RawSense>)
  {
    senses.Array? && |senses.elements| > 0 && senses.elements[0].SenseArray?
  }

  /**
   * The sense outline as createDictionaryEntry calls createNestedList. No outline is
   * ever emitted: when the first sense is an array, createNestedList reads index 0 of
   * `undefined` and throws; otherwise the first formatted sense is an empty array and
   * createNestedList returns "" at depth 0. The glosses are never read.
   */
  function SenseOutlineOf(senses: Field<RawSense>): (r: Result<string>)
    ensures r == if FirstSenseIsArray(senses) then Throw(ReadOfUndefined) else Ok("")
  {
    if senses.Array? && |senses.elements| > 0
    then
      var formatted := MapEach(senses.elements, FormatSense);
      assert formatted[0] == FormatSense(senses.elements[0]);
      assert FirstSenseIsArray(senses) ==> None in formatted;
      SenseOutline.CreateNestedList(formatted, 0)
    else Ok("")
  }

  // ---------------------------------------------------------------------------
  // The entry

  /**
   * createDictionaryEntry(def). It throws exactly when `translations` is a truthy
   * non-array or holds `null`, or when the first sense is an array; otherwise the entry
   * runs from the `<idx:entry …>` opening to `</idx:entry>`.
   */
  function CreateDictionaryEntry(def: Definition): (entry: Result<string>)
    ensures entry.Throw? <==> TranslationsThrow(def.translations) || FirstSenseIsArray(def.senses)
    ensures entry.Ok? ==> StartsWith(entry.value, EntryStart) && EndsWith(entry.value, EntryEnd)
  {
    match Inflections(def.translations)
    case Throw(e) => Throw(e)
    case Ok(inflections) =>
      match SenseOutlineOf(def.senses)
      case Throw(e) => Throw(e)
      case Ok(outline) =>
        var beforeEnd :=
          EntryStart + Interpolate(def.word) + inflections + "</idx:orth>"
          + Phonetic(def.sounds)
          + "</dt><br /><dd>"
          + PartOfSpeech(def)
          + outline
          + "</dd>"
          + Etymology(def.etymologyText)
          + Forms(def.forms)
          + Synonyms(def.synonyms);
        assert StartsWith(beforeEnd, EntryStart);
        var text := beforeEnd + EntryEnd;
        assert text[..|EntryStart|] == EntryStart;
        assert text[|text| - |EntryEnd|..] == EntryEnd;
        Ok(text)
  }

  /**
   * A rendered entry in full: the headword and its inflections in `<idx:orth>`, the
   * pronunciation, then a `<dd>` that holds the part-of-speech note and nothing else,
   * then the etymology, forms and synonyms lines.
   */
  lemma EntryLayout(def: Definition)
    requires CreateDictionaryEntry(def).Ok?
    ensures CreateDictionaryEntry(def).value ==
      EntryStart + Interpolate(def.word) + Inflections(def.translations).value + "</idx:orth>"
      + Phonetic(def.sounds)
      + "</dt><br /><dd>" + PartOfSpeech(def) + "</dd>"
      + Etymology(def.etymologyText) + Forms(def.forms) + Synonyms(def.synonyms)
      + EntryEnd
  {
    assert SenseOutlineOf(def.senses) == Ok("");
  }
}
