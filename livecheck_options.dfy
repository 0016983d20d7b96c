/**
 * Livecheck::Options: the options that change how livecheck fetches a URL
 * (whether to use brewed curl, and form or JSON data for a POST request).
 * The object is immutable: every field is set once at construction, and
 * `merge` builds a new object. Ruby's nil is None.
 */
module LivecheckOptions {
  import opened Wrappers

  /** A key of a data hash: Ruby allows String and Symbol keys. */
  datatype HashKey = StringKey(s: string) | SymbolKey(s: string)

  /** Form or JSON data for a POST request. */
  type FormData = map<HashKey, string>

  /** The three fields: the Symbol keys of `to_h`. */
  datatype Field = HomebrewCurl | PostForm | PostJson

  /** A value of `to_h`: nil, a Boolean or a data hash. */
  datatype Value = Nil | Bool(b: bool) | Data(data: FormData)

  /** Whether a value has the type its field is declared with, as the signature of `initialize` checks. */
  predicate Fits(f: Field, v: Value) {
    match f
    case HomebrewCurl => !v.Data?
    case _ => !v.Bool?
  }

  /** A hash that `Options.new(**hash)` accepts: every value fits its field. */
  predicate WellTyped(h: map<Field, Value>) {
    forall f | f in h :: Fits(f, h[f])
  }

  /** The argument of `merge`: another Options, or a plain hash with Symbol keys. */
  datatype Other = OfOptions(options: Options) | OfHash(hash: map<Field, Value>)

  function BoolValue(b: Option<bool>): Value {
    match b
    case None => Nil
    case Some(x) => Bool(x)
  }

  function DataValue(d: Option<FormData>): Value {
    match d
    case None => Nil
    case Some(x) => Data(x)
  }

  function AsBool(v: Value): Option<bool> {
    if v.Bool? then Some(v.b) else None
  }

  function AsData(v: Value): Option<FormData> {
    if v.Data? then Some(v.data) else None
  }

  /** The String key `to_hash` uses for a field. */
  function FieldName(f: Field): string {
    match f
    case HomebrewCurl => "homebrew_curl"
    case PostForm => "post_form"
    case PostJson => "post_json"
  }

  datatype Options = Options(homebrewCurl: Option<bool>, postForm: Option<FormData>, postJson: Option<FormData>)
  {
    /** `url_options`: the options passed on to `url`, by Symbol key. */
    function UrlOptions(): map<Field, Value> {
      map[HomebrewCurl := BoolValue(homebrewCurl), PostForm := DataValue(postForm), PostJson := DataValue(postJson)]
    }

    /** `to_h`: every field by Symbol key. */
    function ToH(): map<Field, Value> {
      map[HomebrewCurl := BoolValue(homebrewCurl), PostForm := DataValue(postForm), PostJson := DataValue(postJson)]
    }

    /** `to_hash`: every field by String key. */
    function ToHash(): map<string, Value> {
      map[FieldName(HomebrewCurl) := BoolValue(homebrewCurl),
          FieldName(PostForm) := DataValue(postForm),
          FieldName(PostJson) := DataValue(postJson)]
    }

    /**
     * `merge(other)`: a blank `other` gives a copy of this object; an Options
     * `other` has its nil fields compacted away first; a hash that equals
     * `to_h` gives a copy; otherwise `to_h` merged with the other hash is
     * passed to `Options.new`.
     */
    function Merge(other: Other): Options
      requires other.OfHash? ==> WellTyped(other.hash)
    {
      if Blank(other) then this
      else
        var thisHash := ToH();
        var otherHash := match other
          case OfOptions(o) => Compact(o.ToH())
          case OfHash(h) => h;
        if thisHash == otherHash then this
        else FromHash(thisHash + otherHash)
    }

    /** `==`: all three fields are equal. */
    predicate Equals(other: Options) {
      homebrewCurl == other.homebrewCurl && postForm == other.postForm && postJson == other.postJson
    }

    /** `empty?`: only default values. */
    predicate IsEmpty() {
      homebrewCurl.None? && postForm.None? && postJson.None?
    }

    /** `present?`: some non-default value. */
    predicate IsPresent() {
      homebrewCurl.Some? || postForm.Some? || postJson.Some?
    }
  }

  /** `Options.new(homebrew_curl:, post_form:, post_json:)`, each argument nil by default. */
  function New(homebrewCurl: Option<bool> := None, postForm: Option<FormData> := None,
               postJson: Option<FormData> := None): Options
  {
    Options(homebrewCurl, postForm, postJson)
  }

  /** `Options.new(**hash)`: a key the hash leaves out keeps its nil default. */
  function FromHash(h: map<Field, Value>): Options
    requires WellTyped(h)
  {
    New(if HomebrewCurl in h then AsBool(h[HomebrewCurl]) else None,
        if PostForm in h then AsData(h[PostForm]) else None,
        if PostJson in h then AsData(h[PostJson]) else None)
  }

  /** `blank?` of the argument: an Options that is `empty?`, or an empty hash. */
  predicate Blank(other: Other) {
    match other
    case OfOptions(o) => o.IsEmpty()
    case OfHash(h) => h == map[]
  }

  /** Hash#compact: the nil values removed. */
  function Compact(h: map<Field, Value>): map<Field, Value> {
    map f | f in h && !h[f].Nil? :: h[f]
  }

  /**
   * The merge of two Options, field by field: the other object's value where
   * it is not nil, this object's value otherwise.
   */
  function Overlay(o: Options, p: Options): Options {
    Options(if p.homebrewCurl.Some? then p.homebrewCurl else o.homebrewCurl,
            if p.postForm.Some? then p.postForm else o.postForm,
            if p.postJson.Some? then p.postJson else o.postJson)
  }

  // ---------------------------------------------------------------------------
  // Properties
  // ---------------------------------------------------------------------------

  /** Construction stores the three fields as given, and with no arguments the object is empty. */
  lemma NewStoresFields(homebrewCurl: Option<bool>, postForm: Option<FormData>, postJson: Option<FormData>)
    ensures var o := New(homebrewCurl, postForm, postJson);
            o.homebrewCurl == homebrewCurl && o.postForm == postForm && o.postJson == postJson
    ensures New().IsEmpty() && New() == Options(None, None, None)
  {
  }

  /** `url_options` and `to_h` give the same three values. */
  lemma UrlOptionsIsToH(o: Options)
    ensures o.UrlOptions() == o.ToH()
  {
  }

  /** `to_hash` gives the values of `to_h`, each under the String form of its Symbol key. */
  lemma ToHashMatchesToH(o: Options)
    ensures forall f: Field :: FieldName(f) in o.ToHash() && o.ToHash()[FieldName(f)] == o.ToH()[f]
    ensures o.ToHash().Keys == {"homebrew_curl", "post_form", "post_json"}
  {
    assert "homebrew_curl" != "post_form" && "homebrew_curl" != "post_json" && "post_form" != "post_json" by {
      assert "homebrew_curl"[0] != "post_form"[0];
      assert "homebrew_curl"[0] != "post_json"[0];
      assert "post_form"[5] != "post_json"[5];
    }
  }

  /** `to_h` loses nothing: `Options.new(**to_h)` is the object again. */
  lemma FromHashToH(o: Options)
    ensures FromHash(o.ToH()) == o
  {
    match o.homebrewCurl { case None => case Some(_) => }
    match o.postForm { case None => case Some(_) => }
    match o.postJson { case None => case Some(_) => }
  }

  /** Conversely, a well-typed hash with all three keys is the `to_h` of the object built from it. */
  lemma ToHFromHash(h: map<Field, Value>)
    requires WellTyped(h) && h.Keys == {HomebrewCurl, PostForm, PostJson}
    ensures FromHash(h).ToH() == h
  {
    var g := FromHash(h).ToH();
    assert Fits(HomebrewCurl, h[HomebrewCurl]) && Fits(PostForm, h[PostForm]) && Fits(PostJson, h[PostJson]);
    assert g[HomebrewCurl] == h[HomebrewCurl];
    assert g[PostForm] == h[PostForm];
    assert g[PostJson] == h[PostJson];
    assert g.Keys == h.Keys;
  }

  /** `merge` with a blank argument is a copy of the object. */
  lemma MergeBlank(o: Options, other: Other)
    requires other.OfHash? ==> WellTyped(other.hash)
    requires Blank(other)
    ensures o.Merge(other) == o
  {
  }

  /** An Options' compacted `to_h` is a well-typed hash holding exactly its non-nil fields. */
  lemma CompactToH(p: Options)
    ensures WellTyped(Compact(p.ToH()))
    ensures HomebrewCurl in Compact(p.ToH()) <==> p.homebrewCurl.Some?
    ensures PostForm in Compact(p.ToH()) <==> p.postForm.Some?
    ensures PostJson in Compact(p.ToH()) <==> p.postJson.Some?
    ensures forall f | f in Compact(p.ToH()) :: Compact(p.ToH())[f] == p.ToH()[f]
  {
  }

  /** Building an Options from `to_h` overlaid with another's compacted `to_h` is the field-by-field overlay. */
  lemma {:induction false} FromHashOverlay(o: Options, p: Options)
    ensures WellTyped(o.ToH() + Compact(p.ToH()))
    ensures FromHash(o.ToH() + Compact(p.ToH())) == Overlay(o, p)
  {
    var c := Compact(p.ToH());
    CompactToH(p);
    var merged := o.ToH() + c;
    assert HomebrewCurl in merged && PostForm in merged && PostJson in merged;
    assert merged[HomebrewCurl] == if p.homebrewCurl.Some? then Bool(p.homebrewCurl.value) else BoolValue(o.homebrewCurl);
    assert merged[PostForm] == if p.postForm.Some? then Data(p.postForm.value) else DataValue(o.postForm);
    assert merged[PostJson] == if p.postJson.Some? then Data(p.postJson.value) else DataValue(o.postJson);
    assert WellTyped(merged);
    var r := FromHash(merged);
    assert r.homebrewCurl == Overlay(o, p).homebrewCurl;
    assert r.postForm == Overlay(o, p).postForm;
    assert r.postJson == Overlay(o, p).postJson;
  }

  /**
   * Merging another Options takes, field by field, the other object's value
   * where it is not nil and this object's value otherwise.
   */
  lemma {:induction false} MergeOptions(o: Options, p: Options)
    ensures o.Merge(OfOptions(p)) == Overlay(o, p)
  {
    var thisHash, otherHash := o.ToH(), Compact(p.ToH());
    if Blank(OfOptions(p)) {
    } else if thisHash == otherHash {
      CompactToH(p);
      assert p.homebrewCurl.Some? && p.postForm.Some? && p.postJson.Some?;
      assert o.ToH() == p.ToH();
      FromHashToH(o);
      FromHashToH(p);
    } else {
      FromHashOverlay(o, p);
    }
  }

  /** Merging an empty Options changes nothing: nil values never overwrite. */
  lemma MergeEmptyOptions(o: Options, p: Options)
    requires p.IsEmpty()
    ensures o.Merge(OfOptions(p)) == o
  {
    MergeOptions(o, p);
  }

  /** `merge(self)` is the object itself. */
  lemma MergeSelf(o: Options)
    ensures o.Merge(OfOptions(o)) == o
  {
    MergeOptions(o, o);
  }

  /**
   * Merging a hash is not compacted: every key it has overwrites, nil
   * included, and every other field keeps this object's value.
   */
  lemma {:induction false} MergeHash(o: Options, h: map<Field, Value>)
    requires WellTyped(h)
    ensures o.Merge(OfHash(h)).ToH() == o.ToH() + h
  {
    if Blank(OfHash(h)) {
      assert o.ToH() + h == o.ToH();
    } else if o.ToH() == h {
      assert o.ToH() + h == o.ToH();
    } else {
      var merged := o.ToH() + h;
      assert WellTyped(merged);
      assert merged.Keys == {HomebrewCurl, PostForm, PostJson};
      ToHFromHash(merged);
    }
  }

  /** In particular a nil in the hash clears the field, where an Options' nil would not. */
  lemma MergeHashNil(o: Options, f: Field)
    ensures o.Merge(OfHash(map[f := Nil])).ToH()[f] == Nil
    ensures forall g: Field | g != f :: o.Merge(OfHash(map[f := Nil])).ToH()[g] == o.ToH()[g]
  {
    MergeHash(o, map[f := Nil]);
  }

  /** `==` holds exactly when the two objects are the same value. */
  lemma EqualsIsFieldwise(a: Options, b: Options)
    ensures a.Equals(b) <==> a == b
  {
  }

  /** `empty?` holds exactly for the default object, and `present?` is always its negation. */
  lemma EmptyAndPresent(o: Options)
    ensures o.IsEmpty() <==> o == New()
    ensures o.IsPresent() <==> !o.IsEmpty()
  {
  }

  /** An Options argument is blank exactly when it is empty, and merging it is the identity. */
  lemma BlankOptionsIsEmpty(o: Options, p: Options)
    ensures Blank(OfOptions(p)) <==> p.IsEmpty()
    ensures Blank(OfOptions(p)) ==> o.Merge(OfOptions(p)) == o
  {
  }
}
