/** The admin game form (src/components/admin/game-form.tsx): schema, tag parsing, defaults and the save. */
module GameForm {
  import opened Wrappers
  import opened Text
  import opened Types
  import opened DocStore

  /** The form's values as the schema receives them; `price` is already a number, in paise. */
  datatype GameFormInput = GameFormInput(
    title: string,
    slug: string,
    platform: string,
    price: int,
    shortDescription: string,
    description: string,
    imageUrl: string,
    imageHint: Option<string>,
    bannerUrl: string,
    bannerHint: Option<string>,
    tags: string)

  /** What the schema hands to `onSubmit`: the same fields, with `tags` parsed into a list. */
  datatype GameFormValues = GameFormValues(
    title: string,
    slug: string,
    platform: Platform,
    price: int,
    shortDescription: string,
    description: string,
    imageUrl: string,
    imageHint: Option<string>,
    bannerUrl: string,
    bannerHint: Option<string>,
    tags: seq<string>)

  datatype GameField =
    | TitleField | SlugField | PlatformField | PriceField | ShortDescriptionField
    | DescriptionField | ImageUrlField | BannerUrlField | TagsField

  /** The tags transform: split on ',' and trim every piece; empty pieces stay in the list. */
  function ParseTags(s: string): (tags: seq<string>)
    ensures |tags| == |Split(s, ',')|
    ensures forall i :: 0 <= i < |tags| ==> tags[i] == Trim(Split(s, ',')[i])
    ensures forall i :: 0 <= i < |tags| ==> ',' !in tags[i] && NoOuterSpace(tags[i])
  {
    ParsedTagsHaveNoComma(s);
    seq(|Split(s, ',')|, i requires 0 <= i < |Split(s, ',')| => Trim(Split(s, ',')[i]))
  }

  lemma ParsedTagsHaveNoComma(s: string)
    ensures forall i :: 0 <= i < |Split(s, ',')| ==> ',' !in Trim(Split(s, ',')[i])
  {
    forall i | 0 <= i < |Split(s, ',')| ensures ',' !in Trim(Split(s, ',')[i]) {
      TrimKeepsAbsent(Split(s, ',')[i], ',');
    }
  }

  /**
   * `gameFormSchema`: the fields whose rule the input breaks. `isUrl` stands
   * for the schema library's URL check. The slug is only length-checked;
   * nothing here compares it with other games.
   */
  function GameErrors(input: GameFormInput, isUrl: string -> bool): (errs: set<GameField>)
    ensures TitleField !in errs <==> Utf16Length(input.title) >= 2
    ensures SlugField !in errs <==> Utf16Length(input.slug) >= 2
    ensures PlatformField !in errs <==> input.platform == "PC"
    ensures PriceField !in errs <==> input.price >= 0
    ensures ShortDescriptionField !in errs <==> 10 <= Utf16Length(input.shortDescription) <= 160
    ensures DescriptionField !in errs <==> Utf16Length(input.description) >= 20
    ensures ImageUrlField !in errs <==> isUrl(input.imageUrl)
    ensures BannerUrlField !in errs <==> isUrl(input.bannerUrl)
    ensures TagsField !in errs <==> input.tags != ""
  {
    set f: GameField | Broken(input, isUrl, f)
  }

  predicate Broken(input: GameFormInput, isUrl: string -> bool, f: GameField)
  {
    match f
    case TitleField => Utf16Length(input.title) < 2
    case SlugField => Utf16Length(input.slug) < 2
    case PlatformField => input.platform != "PC"
    case PriceField => input.price < 0
    case ShortDescriptionField => Utf16Length(input.shortDescription) < 10 || Utf16Length(input.shortDescription) > 160
    case DescriptionField => Utf16Length(input.description) < 20
    case ImageUrlField => !isUrl(input.imageUrl)
    case BannerUrlField => !isUrl(input.bannerUrl)
    case TagsField => input.tags == ""
  }

  /** The schema's parse: the values with parsed tags, or the broken fields. */
  function ValidateGame(input: GameFormInput, isUrl: string -> bool): (r: Result<GameFormValues, set<GameField>>)
    ensures r.Success? <==> GameErrors(input, isUrl) == {}
    ensures r.Failure? ==> r.error == GameErrors(input, isUrl)
    ensures r.Success? ==>
      && r.value.title == input.title && r.value.slug == input.slug && r.value.platform == PC
      && r.value.price == input.price && r.value.shortDescription == input.shortDescription
      && r.value.description == input.description && r.value.imageUrl == input.imageUrl
      && r.value.imageHint == input.imageHint && r.value.bannerUrl == input.bannerUrl
      && r.value.bannerHint == input.bannerHint && r.value.tags == ParseTags(input.tags)
  {
    var errs := GameErrors(input, isUrl);
    if errs != {} then Failure(errs)
    else Success(GameFormValues(input.title, input.slug, PC, input.price, input.shortDescription,
                                input.description, input.imageUrl, input.imageHint, input.bannerUrl,
                                input.bannerHint, ParseTags(input.tags)))
  }

  /** The form's starting values; a missing field starts empty. */
  datatype GameDraft = GameDraft(
    title: Option<string>,
    slug: Option<string>,
    platform: Option<string>,
    price: Option<int>,
    shortDescription: Option<string>,
    description: Option<string>,
    imageUrl: Option<string>,
    bannerUrl: Option<string>,
    tags: Option<string>)

  function PlatformName(p: Platform): string
  {
    match p
    case PC => "PC"
    case PS => "PS"
    case Xbox => "Xbox"
  }

  /** `defaultValues`: platform 'PC' and price 0 for a new game; the game's own values, tags joined by ", ", when editing. */
  function DefaultValues(existing: Option<Game>): (d: GameDraft)
    ensures existing.None? ==>
      d == GameDraft(None, None, Some("PC"), Some(0), None, None, None, None, None)
    ensures existing.Some? ==>
      var g := existing.value;
      d == GameDraft(Some(g.title), Some(g.slug), Some(PlatformName(g.platform)), Some(g.price),
                     Some(g.shortDescription), Some(g.description), Some(g.imageUrl), Some(g.bannerUrl),
                     Some(Join(g.tags, ", ")))
  {
    match existing
    case None => GameDraft(None, None, Some("PC"), Some(0), None, None, None, None, None)
    case Some(g) =>
      GameDraft(Some(g.title), Some(g.slug), Some(PlatformName(g.platform)), Some(g.price),
                Some(g.shortDescription), Some(g.description), Some(g.imageUrl), Some(g.bannerUrl),
                Some(Join(g.tags, ", ")))
  }

  function Spaced(ts: seq<string>): (r: seq<string>)
    ensures |r| == |ts|
    ensures forall i :: 0 <= i < |ts| ==> r[i] == [' '] + ts[i]
  {
    seq(|ts|, i requires 0 <= i < |ts| => [' '] + ts[i])
  }

  /** The pieces a ", "-joined list splits into at ',': every tag after the first keeps its leading blank. */
  function Padded(tags: seq<string>): (r: seq<string>)
    requires |tags| >= 1
    ensures |r| == |tags| && r[0] == tags[0]
    ensures forall i :: 1 <= i < |tags| ==> r[i] == [' '] + tags[i]
  {
    [tags[0]] + Spaced(tags[1..])
  }

  lemma JoinLeadingSpace(a: string, rest: seq<string>)
    ensures Join([[' '] + a] + rest, [',']) == [' '] + Join([a] + rest, [','])
  {
    if |rest| > 0 {
      assert ([[' '] + a] + rest)[1..] == rest;
      assert ([a] + rest)[1..] == rest;
    }
  }

  /** Joining with ", " is joining the padded pieces with ",". */
  lemma {:induction false} JoinCommaSpace(tags: seq<string>)
    requires |tags| >= 1
    ensures Join(tags, ", ") == Join(Padded(tags), [','])
    decreases |tags|
  {
    if |tags| > 1 {
      var rest := tags[1..];
      JoinCommaSpace(rest);
      assert Spaced(rest) == [[' '] + rest[0]] + Spaced(rest[1..]);
      JoinLeadingSpace(rest[0], Spaced(rest[1..]));
      assert Padded(tags)[1..] == Spaced(rest);
    }
  }

  lemma BlankKeepsCommaFree(t: string)
    requires ',' !in t
    ensures ',' !in [' '] + t
  {
    forall k | 0 <= k < |t| + 1 ensures ([' '] + t)[k] != ',' {
      if k > 0 {
        assert ([' '] + t)[k] == t[k - 1];
      }
    }
  }

  lemma {:induction false} PaddedPiece(tags: seq<string>, i: nat)
    requires i < |tags|
    requires ',' !in tags[i] && NoOuterSpace(tags[i])
    ensures |Padded(tags)| == |tags|
    ensures ',' !in Padded(tags)[i] && Trim(Padded(tags)[i]) == tags[i]
  {
    var t := tags[i];
    if i == 0 {
      assert Padded(tags)[i] == t;
      TrimOfTrimmed(t);
    } else {
      assert Padded(tags)[i] == [' '] + t;
      BlankKeepsCommaFree(t);
      TrimOfTrimmed(t);
    }
  }

  /** The ", "-joined tags split at ',' into the padded pieces. */
  lemma {:induction false} SplitJoinedTags(tags: seq<string>)
    requires |tags| >= 1
    requires forall i :: 0 <= i < |tags| ==> ',' !in tags[i] && NoOuterSpace(tags[i])
    ensures Split(Join(tags, ", "), ',') == Padded(tags)
    ensures forall i :: 0 <= i < |tags| ==> Trim(Padded(tags)[i]) == tags[i]
  {
    var padded := Padded(tags);
    JoinCommaSpace(tags);
    forall i | 0 <= i < |padded| ensures ',' !in padded[i] && Trim(padded[i]) == tags[i] {
      PaddedPiece(tags, i);
    }
    SplitJoin(padded, ',');
  }

  /**
   * Saving an edit without touching the tags field stores the original list,
   * provided the joined string is non-empty and no tag holds ',' or outer whitespace.
   */
  lemma {:induction false} EditKeepsTags(tags: seq<string>)
    requires Join(tags, ", ") != ""
    requires forall i :: 0 <= i < |tags| ==> ',' !in tags[i] && NoOuterSpace(tags[i])
    ensures ParseTags(Join(tags, ", ")) == tags
  {
    assert |tags| >= 1;
    var joined := Join(tags, ", ");
    SplitJoinedTags(tags);
    var pieces := Split(joined, ',');
    assert pieces == Padded(tags);
    var parsed := ParseTags(joined);
    assert |parsed| == |tags|;
    forall i | 0 <= i < |tags| ensures parsed[i] == tags[i] {
      assert parsed[i] == Trim(pieces[i]);
    }
  }

  function StrValues(ss: seq<string>): (vs: seq<Value>)
    ensures |vs| == |ss| && forall i :: 0 <= i < |ss| ==> vs[i] == Str(ss[i])
  {
    seq(|ss|, i requires 0 <= i < |ss| => Str(ss[i]))
  }

  /** The document `onSubmit` writes: the nine form fields, and each hint only when given. */
  function GameDoc(v: GameFormValues): (d: Doc)
    ensures d.Keys == FormFields(v).Keys
                      + (if v.imageHint.Some? then {"imageHint"} else {})
                      + (if v.bannerHint.Some? then {"bannerHint"} else {})
    ensures forall k :: k in FormFields(v) ==> d[k] == FormFields(v)[k]
    ensures v.imageHint.Some? ==> "imageHint" in d && d["imageHint"] == Str(v.imageHint.value)
    ensures v.bannerHint.Some? ==> "bannerHint" in d && d["bannerHint"] == Str(v.bannerHint.value)
    ensures "id" !in d && "rating" !in d && "systemRequirements" !in d
  {
    WithHint(WithHint(FormFields(v), "imageHint", v.imageHint), "bannerHint", v.bannerHint)
  }

  /** The nine fields every save writes, each holding its parsed value: the platform by name, the tags as a list. */
  function FormFields(v: GameFormValues): (d: Doc)
    ensures d.Keys == {"title", "slug", "platform", "price", "shortDescription", "description",
                       "imageUrl", "bannerUrl", "tags"}
    ensures && d["title"] == Str(v.title) && d["slug"] == Str(v.slug)
            && d["platform"] == Str(PlatformName(v.platform)) && d["price"] == Num(v.price)
            && d["shortDescription"] == Str(v.shortDescription) && d["description"] == Str(v.description)
            && d["imageUrl"] == Str(v.imageUrl) && d["bannerUrl"] == Str(v.bannerUrl)
            && d["tags"] == List(StrValues(v.tags))
    ensures "imageHint" !in d && "bannerHint" !in d
    ensures "id" !in d && "rating" !in d && "systemRequirements" !in d
  {
    map["title" := Str(v.title), "slug" := Str(v.slug), "platform" := Str(PlatformName(v.platform)),
        "price" := Num(v.price), "shortDescription" := Str(v.shortDescription),
        "description" := Str(v.description), "imageUrl" := Str(v.imageUrl),
        "bannerUrl" := Str(v.bannerUrl), "tags" := List(StrValues(v.tags))]
  }

  /** An optional hint field: written when given, absent otherwise. */
  function WithHint(d: Doc, k: string, hint: Option<string>): (r: Doc)
    ensures r.Keys == d.Keys + (if hint.Some? then {k} else {})
    ensures forall j :: j in d && j != k ==> r[j] == d[j]
    ensures hint.Some? ==> k in r && r[k] == Str(hint.value)
  {
    if hint.Some? then d[k := Str(hint.value)] else d
  }

  /** An update keeps every stored field the form does not submit, such as `rating` and `systemRequirements`. */
  lemma UpdateKeepsUnsubmittedFields(stored: Doc, v: GameFormValues)
    ensures forall k :: k in stored && k !in GameDoc(v) ==> k in Merge(stored, GameDoc(v)) && Merge(stored, GameDoc(v))[k] == stored[k]
    ensures "rating" in stored ==> Merge(stored, GameDoc(v))["rating"] == stored["rating"]
    ensures "systemRequirements" in stored ==> Merge(stored, GameDoc(v))["systemRequirements"] == stored["systemRequirements"]
  {
  }

  datatype GameOutcome =
    | InvalidGame(errors: set<GameField>)  // the schema rejected the input; `onSubmit` is not called
    | StoreUnavailable                     // destructive "Firestore not available" toast
    | GameUpdated                          // "Game Updated" toast, then /admin/games
    | GameAdded(id: string)                // "Game Added" toast, then /admin/games

  /** `form.handleSubmit(onSubmit)`: exactly one update of `games/{id}` when editing, else exactly one add. */
  method SubmitGame(store: Store?, existing: Option<Game>, input: GameFormInput, isUrl: string -> bool)
    returns (outcome: GameOutcome)
    modifies store
    ensures GameErrors(input, isUrl) != {} ==> outcome == InvalidGame(GameErrors(input, isUrl))
    ensures GameErrors(input, isUrl) == {} && store == null ==> outcome == StoreUnavailable
    ensures outcome.GameUpdated? <==> GameErrors(input, isUrl) == {} && store != null && existing.Some?
    ensures outcome.GameAdded? <==> GameErrors(input, isUrl) == {} && store != null && existing.None?
    ensures outcome.GameUpdated? ==>
      var p := GamePath(existing.value.id);
      store.docs == old(store.docs)[p := Merge(Existing(old(store.docs), p), GameDoc(ValidateGame(input, isUrl).value))]
    ensures outcome.GameAdded? ==>
      && GamePath(outcome.id) !in old(store.docs)
      && store.docs == old(store.docs)[GamePath(outcome.id) := GameDoc(ValidateGame(input, isUrl).value)]
    ensures (outcome.InvalidGame? || outcome.StoreUnavailable?) && store != null ==> store.docs == old(store.docs)
  {
    var parsed := ValidateGame(input, isUrl);
    if parsed.Failure? {
      return InvalidGame(parsed.error);
    }
    if store == null {
      return StoreUnavailable;
    }
    var data := GameDoc(parsed.value);
    if existing.Some? {
      store.Update(GamePath(existing.value.id), data);
      outcome := GameUpdated;
    } else {
      var id := store.Add(GamesCollection(), data);
      outcome := GameAdded(id);
    }
  }
}
