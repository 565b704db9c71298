/**
 * The "add new configuration" part of the system-config form: a list of draft
 * configs edited by slug, a list of slugs whose description input is open, and
 * the filter that picks the drafts worth submitting.
 */
module SystemConfig {

  /** A system config as the form holds it; every field is a string. */
  datatype Config = Config(key: string, value: string, slug: string, description: string, createdAt: string)

  /** The names of a config's fields (`keyof ISystemConfig`). */
  datatype Field = KeyField | ValueField | SlugField | DescriptionField | CreatedAtField

  /** The form's state: the draft configs and the slugs whose description input is open. */
  datatype FormState = FormState(newConfigs: seq<Config>, editingDescriptionSlugs: seq<string>)

  /** The value of one field of a config. */
  function FieldOf(c: Config, field: Field): string {
    match field
    case KeyField => c.key
    case ValueField => c.value
    case SlugField => c.slug
    case DescriptionField => c.description
    case CreatedAtField => c.createdAt
  }

  /** A copy of `c` with one field replaced (`{ ...config, [field]: value }`). */
  function WithField(c: Config, field: Field, value: string): (r: Config)
    ensures FieldOf(r, field) == value
    ensures forall other: Field :: other != field ==> FieldOf(r, other) == FieldOf(c, other)
  {
    match field
    case KeyField => c.(key := value)
    case ValueField => c.(value := value)
    case SlugField => c.(slug := value)
    case DescriptionField => c.(description := value)
    case CreatedAtField => c.(createdAt := value)
  }

  /**
   * `updateConfigField`: every draft whose slug matches gets the field set; the
   * list keeps its length and order and every other draft is left as it was.
   */
  function UpdateConfigField(configs: seq<Config>, slug: string, field: Field, value: string): (r: seq<Config>)
    ensures |r| == |configs|
    ensures forall i :: 0 <= i < |configs| && configs[i].slug == slug ==> r[i] == WithField(configs[i], field, value)
    ensures forall i :: 0 <= i < |configs| && configs[i].slug != slug ==> r[i] == configs[i]
  {
    if |configs| == 0 then []
    else
      var head := if configs[0].slug == slug then WithField(configs[0], field, value) else configs[0];
      [head] + UpdateConfigField(configs[1..], slug, field, value)
  }

  /**
   * `Array.prototype.filter`: the elements that pass `keep`, in order. Each
   * passing element occurs as often as in `s`, and no other element occurs.
   */
  function Filter<T(!new)>(s: seq<T>, keep: T -> bool): (r: seq<T>)
    ensures |r| <= |s|
    ensures forall x :: x in r <==> x in s && keep(x)
    ensures forall x :: multiset(r)[x] == if keep(x) then multiset(s)[x] else 0
  {
    if |s| == 0 then []
    else
      var rest := Filter(s[1..], keep);
      assert s == [s[0]] + s[1..];
      if keep(s[0]) then [s[0]] + rest else rest
  }

  /** Filtering distributes over concatenation, so it keeps the relative order of what it keeps. */
  lemma {:induction false} FilterAppend<T(!new)>(a: seq<T>, b: seq<T>, keep: T -> bool)
    ensures Filter(a + b, keep) == Filter(a, keep) + Filter(b, keep)
    decreases |a|
  {
    if |a| == 0 {
      assert a + b == b;
    } else {
      assert (a + b)[1..] == a[1..] + b;
      FilterAppend(a[1..], b, keep);
    }
  }

  /** Filtering a list whose every element passes gives the list back. */
  lemma {:induction false} FilterKeepsAll<T(!new)>(s: seq<T>, keep: T -> bool)
    requires forall i :: 0 <= i < |s| ==> keep(s[i])
    ensures Filter(s, keep) == s
    decreases |s|
  {
    if |s| > 0 {
      FilterKeepsAll(s[1..], keep);
    }
  }

  /**
   * `removeConfig`: the drafts with the slug and the slug itself among the open
   * description inputs are dropped; everything else stays, in order.
   */
  function RemoveConfig(state: FormState, slug: string): (r: FormState)
    ensures forall c :: c in r.newConfigs <==> c in state.newConfigs && c.slug != slug
    ensures forall s :: s in r.editingDescriptionSlugs <==> s in state.editingDescriptionSlugs && s != slug
    ensures forall c: Config :: c.slug != slug ==> multiset(r.newConfigs)[c] == multiset(state.newConfigs)[c]
    ensures forall s: string :: s != slug ==> multiset(r.editingDescriptionSlugs)[s] == multiset(state.editingDescriptionSlugs)[s]
  {
    FormState(
      Filter(state.newConfigs, (c: Config) => c.slug != slug),
      Filter(state.editingDescriptionSlugs, (s: string) => s != slug))
  }

  /**
   * `toggleDescriptionInput`: an open slug is closed, every occurrence of it
   * removed; a closed one is opened by appending it at the end.
   */
  function ToggleDescriptionInput(slugs: seq<string>, slug: string): (r: seq<string>)
    ensures slug in slugs ==> slug !in r && forall s: string :: s != slug ==> multiset(r)[s] == multiset(slugs)[s]
    ensures slug !in slugs ==> r == slugs + [slug]
  {
    if slug in slugs then Filter(slugs, (s: string) => s != slug) else slugs + [slug]
  }

  /** Opening a closed description input and closing it again restores the list. */
  lemma ToggleTwiceRestores(slugs: seq<string>, slug: string)
    requires slug !in slugs
    ensures ToggleDescriptionInput(ToggleDescriptionInput(slugs, slug), slug) == slugs
  {
    var keep := (s: string) => s != slug;
    FilterAppend(slugs, [slug], keep);
    FilterKeepsAll(slugs, keep);
    assert Filter([slug], keep) == [];
  }

  /**
   * Closing an open input and reopening it is not a no-op: duplicates of the
   * slug collapse into one occurrence at the end of the list.
   */
  lemma ToggleTwiceMovesToEnd(slugs: seq<string>, slug: string)
    requires slug in slugs
    ensures ToggleDescriptionInput(ToggleDescriptionInput(slugs, slug), slug)
              == Filter(slugs, (s: string) => s != slug) + [slug]
  {
  }

  /** A draft worth submitting: both its key and its value are non-empty. */
  predicate IsValid(c: Config) {
    c.key != "" && c.value != ""
  }

  /** The `validConfigs` filter: the drafts with a non-empty key and value, in order. */
  function ValidConfigs(configs: seq<Config>): (r: seq<Config>)
    ensures forall c :: c in r <==> c in configs && IsValid(c)
    ensures forall c :: IsValid(c) ==> multiset(r)[c] == multiset(configs)[c]
    ensures |r| == 0 <==> forall i :: 0 <= i < |configs| ==> !IsValid(configs[i])
  {
    Filter(configs, (c: Config) => IsValid(c))
  }

  /**
   * `createNewConfigs`: the configs sent to the create call, one call each. They
   * are sent whole, slug included, and nothing is sent when no draft is valid.
   */
  function SubmittedConfigs(configs: seq<Config>): (sent: seq<Config>)
    ensures forall c :: c in sent <==> c in configs && IsValid(c)
    ensures |sent| == 0 <==> forall i :: 0 <= i < |configs| ==> !IsValid(configs[i])
  {
    var valid := ValidConfigs(configs);
    if |valid| > 0 then valid else []
  }

  /** Submitting the drafts of two lists together submits each list's valid drafts, in order. */
  lemma SubmittedConfigsAppend(a: seq<Config>, b: seq<Config>)
    ensures SubmittedConfigs(a + b) == SubmittedConfigs(a) + SubmittedConfigs(b)
  {
    FilterAppend(a, b, (c: Config) => IsValid(c));
  }

  /** Updating a field then removing by slug is the same as removing: the removed drafts took the update. */
  lemma UpdateThenRemove(state: FormState, slug: string, field: Field, value: string)
    requires field != SlugField
    ensures RemoveConfig(state.(newConfigs := UpdateConfigField(state.newConfigs, slug, field, value)), slug)
              == RemoveConfig(state, slug)
  {
    UpdateRemoveCommute(state.newConfigs, slug, field, value);
  }

  /** Dropping a slug's drafts ignores any update made to those drafts' other fields. */
  lemma {:induction false} UpdateRemoveCommute(configs: seq<Config>, slug: string, field: Field, value: string)
    requires field != SlugField
    ensures Filter(UpdateConfigField(configs, slug, field, value), (c: Config) => c.slug != slug)
              == Filter(configs, (c: Config) => c.slug != slug)
    decreases |configs|
  {
    if |configs| > 0 {
      var u := UpdateConfigField(configs, slug, field, value);
      assert u[1..] == UpdateConfigField(configs[1..], slug, field, value);
      assert u[0].slug == configs[0].slug;
      UpdateRemoveCommute(configs[1..], slug, field, value);
    }
  }
}
