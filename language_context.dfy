/**
 * The translation provider of src/contexts/LanguageContext.tsx: a closed set
 * of two UI languages, one constant key-to-text table per language, the
 * current language as provider state, and the lookup `t` that falls back to
 * the key itself.
 */
module LanguageContext {

  /** The closed set of supported languages: English ('en') and Turkish ('tr'). */
  datatype Language = En | Tr

  const English: map<string, string> := map[
    "wedding.album" := "Wedding Album",
    "upload.title" := "Please upload your wedding photos",
    "upload.dragdrop" := "Drag and drop a file here",
    "upload.or" := "or",
    "upload.choose" := "Choose File",
    "upload.uploading" := "Uploading...",
    "upload.success" := "Photos uploaded successfully!",
    "upload.error" := "Failed to upload photos. Please try again.",
    "upload.preview" := "Preview",
    "upload.remove" := "Remove",
    "upload.submit" := "Upload Photos",
    "language.switch" := "Switch Language"
  ]

  const Turkish: map<string, string> := map[
    "wedding.album" := "Düğün Albümü",
    "upload.title" := "Lütfen düğün fotoğraflarınızı yükleyin",
    "upload.dragdrop" := "Dosyayı buraya sürükleyip bırakın",
    "upload.or" := "veya",
    "upload.choose" := "Dosya Seç",
    "upload.uploading" := "Yükleniyor...",
    "upload.success" := "Fotoğraflar başarıyla yüklendi!",
    "upload.error" := "Fotoğraflar yüklenemedi. Lütfen tekrar deneyin.",
    "upload.preview" := "Önizleme",
    "upload.remove" := "Kaldır",
    "upload.submit" := "Fotoğrafları Yükle",
    "language.switch" := "Dil Değiştir"
  ]

  /** The table of the given language. */
  function Table(l: Language): map<string, string>
  {
    match l
    case En => English
    case Tr => Turkish
  }

  /** JavaScript truthiness of a string: only the empty string is falsy. */
  predicate Truthy(s: string)
  {
    s != ""
  }

  /**
   * The lookup `t(key)` for language l, reading only the table's own
   * entries: the entry when it is present and truthy, the key otherwise.
   */
  function Translate(l: Language, key: string): (r: string)
    ensures key in Table(l) ==> r == Table(l)[key]
    ensures key !in Table(l) ==> r == key
  {
    if key in Table(l) && Truthy(Table(l)[key]) then Table(l)[key] else key
  }

  /** Every entry in both tables is non-empty text. */
  lemma EntriesNonEmpty(l: Language, key: string)
    requires key in Table(l)
    ensures Truthy(Table(l)[key])
  {
  }

  /** The two tables define the same keys. */
  lemma SameKeys()
    ensures Table(En).Keys == Table(Tr).Keys
  {
  }

  /** A key hits in one language exactly when it hits in the other. */
  lemma HitsAgree(key: string)
    ensures key in Table(En) <==> key in Table(Tr)
    ensures Translate(En, key) == key <==> Translate(Tr, key) == key
  {
    SameKeys();
    if key in Table(En) {
      EntriesNonEmpty(En, key);
      EntriesNonEmpty(Tr, key);
    }
  }

  /** The lookup never yields the empty string for a non-empty key. */
  lemma TranslateNonEmpty(l: Language, key: string)
    requires key != ""
    ensures Translate(l, key) != ""
  {
  }

  /** The key 'upload.or' reads "or" in English and "veya" in Turkish. */
  lemma UploadOrExample()
    ensures Translate(En, "upload.or") == "or"
    ensures Translate(Tr, "upload.or") == "veya"
  {
  }

  /** The key 'theme.toggle' (the header's theme button label) is in neither table. */
  lemma ThemeToggleFallsBack(l: Language)
    ensures Translate(l, "theme.toggle") == "theme.toggle"
  {
  }

  /** The value `translations[language][key]` can take in JavaScript. */
  datatype JsValue =
    | Str(s: string)           // an own string entry of the table
    | Inherited(name: string)  // a member every plain object inherits (a function or an object)
    | Undefined

  /** The names every object literal inherits from Object.prototype. */
  const PrototypeMembers: set<string> := {
    "constructor", "hasOwnProperty", "isPrototypeOf", "propertyIsEnumerable",
    "toLocaleString", "toString", "valueOf", "__proto__",
    "__defineGetter__", "__defineSetter__", "__lookupGetter__", "__lookupSetter__"
  }

  /** Property read on an object literal: own entries first, then the prototype chain. */
  function PropertyRead(table: map<string, string>, key: string): JsValue
  {
    if key in table then Str(table[key])
    else if key in PrototypeMembers then Inherited(key)
    else Undefined
  }

  /** The lookup exactly as written: the table's property, or the key when that property is falsy. */
  function LookupAsWritten(l: Language, key: string): (v: JsValue)
    ensures v.Str? && v.s != key ==> key in Table(l) && v.s == Table(l)[key]
  {
    match PropertyRead(Table(l), key)
    case Str(s) => if Truthy(s) then Str(s) else Str(key)
    case Inherited(name) => Inherited(name)
    case Undefined => Str(key)
  }

  /** As written, looking up 'toString' returns an inherited function, not the key. */
  lemma LookupAsWrittenLeaksPrototype(l: Language)
    ensures LookupAsWritten(l, "toString") == Inherited("toString")
    ensures LookupAsWritten(l, "toString") != Str(Translate(l, "toString"))
  {
    assert "toString" !in Table(l);
  }

  /** On every key that is not an inherited member name, the corrected lookup agrees with the code. */
  lemma TranslateAgreesOffPrototype(l: Language, key: string)
    requires key !in PrototypeMembers
    ensures LookupAsWritten(l, key) == Str(Translate(l, key))
  {
  }

  /** The provider's state: the current language, initially English. */
  class LanguageProvider {
    var language: Language

    /** The provider starts in English. */
    constructor ()
      ensures language == En
    {
      language := En;
    }

    /** Switches the language: every later lookup reads the table of `lang`. */
    method SetLanguage(lang: Language)
      modifies this
      ensures language == lang
      ensures forall key :: T(key) == Translate(lang, key)
    {
      language := lang;
    }

    /**
     * The lookup against the current language, in its corrected form
     * (`Translate`): unlike `LookupAsWritten`, an inherited member name such
     * as 'toString' yields the key.
     */
    function T(key: string): (r: string)
      reads this
      ensures key in Table(language) ==> r == Table(language)[key]
      ensures key !in Table(language) ==> r == key
    {
      Translate(language, key)
    }
  }

}
