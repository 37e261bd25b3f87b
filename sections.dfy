/**
 * Section discovery: the `Object.keys(contents).reduce(...)` in `Home` that
 * turns every `sectionTitle<N>` key of the localized contents into a
 * `{title, content}` pair, with the content read from `sectionContent<N>`.
 */
module Sections {
  import opened Wrappers
  import opened Strings
  import opened Arrays

  const TitlePrefix: string := "sectionTitle"
  const ContentPrefix: string := "sectionContent"

  /** A localized contents object: its keys in `Object.keys` order, and its values. */
  datatype Contents = Contents(keys: seq<string>, values: map<string, string>) {
    /** The keys are the object's own keys, each listed once. */
    predicate Valid() {
      && Distinct(keys)
      && (forall k :: k in keys ==> k in values)
      && (forall k :: k in values ==> k in keys)
    }
  }

  /** One discovered section; `content` is `undefined` when its content key is missing. */
  datatype Section = Section(title: string, content: Option<string>)

  predicate IsTitleKey(key: string) {
    StartsWith(key, TitlePrefix)
  }

  /** `key.replace('sectionTitle', '')` on a title key: the part after the prefix. */
  function SectionSuffix(key: string): (suffix: string)
    requires IsTitleKey(key)
    ensures TitlePrefix + suffix == key
  {
    assert OccursAt(key, TitlePrefix, 0);
    ReplaceFirst(key, TitlePrefix, "")
  }

  /** The entry the reducer pushes for a title key. */
  function SectionFor(c: Contents, key: string): (s: Section)
    requires key in c.values && IsTitleKey(key)
    ensures s.title == c.values[key]
    ensures s.content == Lookup(c.values, ContentPrefix + key[|TitlePrefix|..])
  {
    var suffix := SectionSuffix(key);
    assert suffix == key[|TitlePrefix|..];
    Section(c.values[key], Lookup(c.values, ContentPrefix + suffix))
  }

  /** The title keys among `keys`, in their order. */
  function TitleKeys(keys: seq<string>): seq<string> {
    Filter(keys, IsTitleKey)
  }

  lemma TitleKeysMember(keys: seq<string>, k: string)
    ensures k in TitleKeys(keys) <==> k in keys && IsTitleKey(k)
  {
    FilterMember(keys, IsTitleKey, k);
  }

  /**
   * The sections of a contents object, as the reference definition: one
   * entry per title key, in key order, whatever the other keys are.
   */
  function SectionList(c: Contents, keys: seq<string>): (r: seq<Section>)
    requires forall k :: k in keys ==> k in c.values
  {
    var titleKeys := TitleKeys(keys);
    assert forall k :: k in titleKeys ==> k in c.values && IsTitleKey(k) by {
      forall k | k in titleKeys ensures k in c.values && IsTitleKey(k) {
        TitleKeysMember(keys, k);
      }
    }
    seq(|titleKeys|, i requires 0 <= i < |titleKeys| => SectionFor(c, titleKeys[i]))
  }

  /** One step of the fold: a title key adds its section at the end, any other key adds nothing. */
  lemma SectionListSnoc(c: Contents, keys: seq<string>, k: string)
    requires forall k' :: k' in keys + [k] ==> k' in c.values
    ensures IsTitleKey(k) ==> SectionList(c, keys + [k]) == SectionList(c, keys) + [SectionFor(c, k)]
    ensures !IsTitleKey(k) ==> SectionList(c, keys + [k]) == SectionList(c, keys)
  {
    FilterSnoc(keys, k, IsTitleKey);
  }

  /** The reduce: walk the keys in order and push a section for every title key. */
  method DiscoverSections(c: Contents) returns (sections: seq<Section>)
    requires c.Valid()
    ensures sections == SectionList(c, c.keys)
  {
    sections := [];
    for i := 0 to |c.keys|
      invariant sections == SectionList(c, c.keys[..i])
    {
      var key := c.keys[i];
      assert c.keys[..i + 1] == c.keys[..i] + [key];
      SectionListSnoc(c, c.keys[..i], key);
      if StartsWith(key, TitlePrefix) {
        var title := c.values[key];
        var sectionKey := ReplaceFirst(key, TitlePrefix, "");
        var contentKey := ContentPrefix + sectionKey;
        sections := sections + [Section(title, Lookup(c.values, contentKey))];
      }
    }
    assert c.keys[..|c.keys|] == c.keys;
  }

  /**
   * Exactly the title keys give sections, in key order: the n-th section
   * comes from the n-th title key, the title keys are a subsequence of the
   * keys, and a key is among them iff it carries the title prefix.
   */
  lemma SectionsFollowTitleKeys(c: Contents, keys: seq<string>)
    requires forall k :: k in keys ==> k in c.values
    ensures |SectionList(c, keys)| == |TitleKeys(keys)|
    ensures IsSubsequence(TitleKeys(keys), keys)
    ensures forall k :: k in TitleKeys(keys) <==> k in keys && IsTitleKey(k)
    ensures forall i :: 0 <= i < |TitleKeys(keys)| ==>
      SectionList(c, keys)[i].title == c.values[TitleKeys(keys)[i]]
  {
    FilterIsSubsequence(keys, IsTitleKey);
    forall k ensures k in TitleKeys(keys) <==> k in keys && IsTitleKey(k) {
      TitleKeysMember(keys, k);
    }
  }

  /** With distinct keys, the number of sections is the number of title keys. */
  lemma SectionCount(c: Contents)
    requires c.Valid()
    ensures |SectionList(c, c.keys)| == |set k | k in c.keys && IsTitleKey(k)|
  {
    var titleKeys := TitleKeys(c.keys);
    FilterCount(c.keys, IsTitleKey, "");
    DistinctFilter(c.keys, IsTitleKey);
    forall k ensures k in titleKeys <==> k in c.keys && IsTitleKey(k) {
      TitleKeysMember(c.keys, k);
    }
    assert (set k | k in titleKeys) == (set k | k in c.keys && IsTitleKey(k));
    DistinctCard(titleKeys);
  }

  predicate Distinct(s: seq<string>) {
    forall i, j :: 0 <= i < j < |s| ==> s[i] != s[j]
  }

  lemma {:induction false} DistinctFilter(s: seq<string>, p: string -> bool)
    requires Distinct(s)
    ensures Distinct(Filter(s, p))
  {
    if s != [] {
      DistinctFilter(s[1..], p);
      FilterMember(s[1..], p, s[0]);
      assert s[0] !in s[1..];
    }
  }

  lemma {:induction false} DistinctCard(s: seq<string>)
    requires Distinct(s)
    ensures |set k | k in s| == |s|
  {
    if s != [] {
      DistinctCard(s[1..]);
      assert (set k | k in s) == (set k | k in s[1..]) + {s[0]};
      assert s[0] !in s[1..];
    }
  }

  /** Titles 1 and 3 with their contents, no title 2: two sections, 1 then 3. */
  lemma NumberedSectionsScenario()
    ensures
      var c := Contents(
        ["landingTitle", "sectionTitle1", "sectionContent1", "sectionTitle3", "sectionContent3"],
        map["landingTitle" := "Tools", "sectionTitle1" := "What", "sectionContent1" := "Body 1",
            "sectionTitle3" := "Why", "sectionContent3" := "Body 3"]);
      SectionList(c, c.keys) == [Section("What", Some("Body 1")), Section("Why", Some("Body 3"))]
  {
    var keys := ["landingTitle", "sectionTitle1", "sectionContent1", "sectionTitle3", "sectionContent3"];
    assert !IsTitleKey("landingTitle") by { assert "landingTitle"[0] != TitlePrefix[0]; }
    assert !IsTitleKey("sectionContent1") by { assert "sectionContent1"[7] != TitlePrefix[7]; }
    assert !IsTitleKey("sectionContent3") by { assert "sectionContent3"[7] != TitlePrefix[7]; }
    assert IsTitleKey("sectionTitle1") && IsTitleKey("sectionTitle3");
    assert keys[1..] == ["sectionTitle1", "sectionContent1", "sectionTitle3", "sectionContent3"];
    assert keys[1..][1..] == ["sectionContent1", "sectionTitle3", "sectionContent3"];
    assert keys[1..][1..][1..] == ["sectionTitle3", "sectionContent3"];
    assert keys[1..][1..][1..][1..] == ["sectionContent3"];
    assert TitleKeys(keys) == ["sectionTitle1", "sectionTitle3"];
    assert "sectionTitle1"[|TitlePrefix|..] == "1";
    assert "sectionTitle3"[|TitlePrefix|..] == "3";
    assert ContentPrefix + "1" == "sectionContent1";
    assert ContentPrefix + "3" == "sectionContent3";
  }

  /** A title whose content key is missing still gives a section, with no content. */
  lemma MissingContentScenario()
    ensures
      var c := Contents(["sectionTitle7"], map["sectionTitle7" := "Orphan"]);
      SectionList(c, c.keys) == [Section("Orphan", None)]
  {
  }
}
