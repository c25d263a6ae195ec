/** `TopicRepository`: which topics a request may see, in which order,
    and how a topic is looked up by name.

    The repository's configuration (the classification patterns, the
    default groups, `skip-consumer-groups`) and the behaviour it takes from
    elsewhere (`String.matches`, `isSearchMatch` and `isTopicMatchRegex` of
    the base repository, the group attribute lookup) are the fields of
    `Settings`. What the Kafka cluster answers is the `Upstream` value. */
module TopicRepository {
  import opened Common
  import opened TopicModel
  import Sorting

  /** `TopicListView`: which classes of topics a listing hides. */
  datatype TopicListView = All | HideInternal | HideInternalStream | HideStream {
    predicate HidesInternal() {
      this == HideInternal || this == HideInternalStream
    }
    predicate HidesStream() {
      this == HideStream || this == HideInternalStream
    }
  }

  /** A value of an attribute map: a list, or anything else. */
  datatype AttributeValue = ListValue(items: seq<string>) | OtherValue(text: string)

  /** An attribute map; a key that is absent stands for a `null` value. */
  type Attributes = map<string, AttributeValue>

  /** What the application context offers the current request: no
      `SecurityService` bean, or one with an optional authentication whose
      attributes are given. */
  datatype Security = NoSecurityService | SecurityService(authentication: Option<Attributes>)

  /** The attribute that lists the topic patterns a user may see. */
  const TopicsFilterRegexpAttribute: string := "topics-filter-regexp"

  datatype Settings = Settings(
    internalRegexps: seq<string>,
    streamRegexps: seq<string>,
    defaultGroups: seq<string>,
    skipConsumerGroups: bool,
    /** `name.matches(regex)` */
    matches: (string, string) -> bool,
    /** `isSearchMatch(search, name)` of the base repository */
    isSearchMatch: (Option<string>, string) -> bool,
    /** `isTopicMatchRegex(regexes, name)` of the base repository */
    isTopicMatchRegex: (Option<seq<string>>, string) -> bool,
    /** `userGroupUtils.getUserAttributes(groups)` */
    userAttributes: seq<string> -> Attributes)

  /** The answers of the cluster: `listTopics`, `describeTopics`,
      `describeTopicsOffsets`, and the consumer-group, log-directory and ACL
      repositories' `findByTopic`. */
  datatype Upstream = Upstream(
    listTopics: seq<string>,
    describeTopics: seq<string> -> seq<TopicDescription>,
    describeTopicsOffsets: seq<string> -> map<string, seq<Offsets>>,
    consumerGroups: string -> seq<ConsumerGroup>,
    logDirs: string -> seq<LogDir>,
    acls: string -> seq<AccessControlList>)

  // ---------------------------------------------------------------------
  // Classification and views
  // ---------------------------------------------------------------------

  /** `patterns.stream().anyMatch(name::matches)` */
  function AnyMatch(name: string, patterns: seq<string>, matches: (string, string) -> bool): (r: bool)
    ensures r <==> exists i :: 0 <= i < |patterns| && matches(name, patterns[i])
  {
    if patterns == [] then false
    else if matches(name, patterns[0]) then true
    else
      var r := AnyMatch(name, patterns[1..], matches);
      assert forall i :: 1 <= i < |patterns| ==> patterns[i] == patterns[1..][i - 1];
      r
  }

  /** `isInternal(name)`: some internal pattern matches the whole name. */
  function IsInternalName(settings: Settings, name: string): (r: bool)
    ensures r <==> exists i :: 0 <= i < |settings.internalRegexps| && settings.matches(name, settings.internalRegexps[i])
  {
    AnyMatch(name, settings.internalRegexps, settings.matches)
  }

  /** `isStream(name)`: some stream pattern matches the whole name. */
  function IsStreamName(settings: Settings, name: string): (r: bool)
    ensures r <==> exists i :: 0 <= i < |settings.streamRegexps| && settings.matches(name, settings.streamRegexps[i])
  {
    AnyMatch(name, settings.streamRegexps, settings.matches)
  }

  /** `isListViewMatch(view, name)`: the name is kept unless the view hides
      a class the name belongs to. */
  function IsListViewMatch(settings: Settings, view: TopicListView, name: string): (r: bool)
    ensures r <==>
      && (view.HidesInternal() ==> !IsInternalName(settings, name))
      && (view.HidesStream() ==> !IsStreamName(settings, name))
  {
    match view
    case HideStream => !IsStreamName(settings, name)
    case HideInternal => !IsInternalName(settings, name)
    case HideInternalStream => !IsInternalName(settings, name) && !IsStreamName(settings, name)
    case All => true
  }

  // ---------------------------------------------------------------------
  // Allowed topic patterns
  // ---------------------------------------------------------------------

  /** `getTopicFilterRegexFromAttributes(attributes)`: the attribute's list
      when it is present and a list, and the empty list otherwise. */
  function TopicFilterRegexFromAttributes(attributes: Attributes): (r: seq<string>)
    ensures TopicsFilterRegexpAttribute in attributes && attributes[TopicsFilterRegexpAttribute].ListValue? ==>
      r == attributes[TopicsFilterRegexpAttribute].items
    ensures !(TopicsFilterRegexpAttribute in attributes && attributes[TopicsFilterRegexpAttribute].ListValue?) ==>
      r == []
  {
    if TopicsFilterRegexpAttribute in attributes then
      match attributes[TopicsFilterRegexpAttribute]
      case ListValue(items) => items
      case OtherValue(_) => []
    else []
  }

  /** The authenticated principal's patterns; none without a security
      service or without an authentication. */
  function PrincipalRegex(security: Security): seq<string> {
    match security
    case SecurityService(Some(attributes)) => TopicFilterRegexFromAttributes(attributes)
    case _ => []
  }

  /** The default groups' patterns. */
  function DefaultGroupsRegex(settings: Settings): seq<string> {
    TopicFilterRegexFromAttributes(settings.userAttributes(settings.defaultGroups))
  }

  /** The allowed patterns of a request: the principal's, then the default
      groups'. */
  function TopicFilterRegex(settings: Settings, security: Security): seq<string> {
    PrincipalRegex(security) + DefaultGroupsRegex(settings)
  }

  /** `getTopicFilterRegex()`: always present; the principal's patterns in
      their order, followed by the default groups' patterns in theirs. */
  method GetTopicFilterRegex(settings: Settings, security: Security) returns (r: Option<seq<string>>)
    ensures r.Some?
    ensures r.value == TopicFilterRegex(settings, security)
    ensures |r.value| == |PrincipalRegex(security)| + |DefaultGroupsRegex(settings)|
    ensures r.value[..|PrincipalRegex(security)|] == PrincipalRegex(security)
    ensures r.value[|PrincipalRegex(security)|..] == DefaultGroupsRegex(settings)
    ensures security.NoSecurityService? || security.authentication.None? ==>
      r.value == DefaultGroupsRegex(settings)
  {
    var topicFilterRegex: seq<string> := [];
    if security.SecurityService? {
      var authentication := security.authentication;
      if authentication.Some? {
        topicFilterRegex := topicFilterRegex + TopicFilterRegexFromAttributes(authentication.value);
      }
    }
    topicFilterRegex := topicFilterRegex + TopicFilterRegexFromAttributes(settings.userAttributes(settings.defaultGroups));
    return Some(topicFilterRegex);
  }

  // ---------------------------------------------------------------------
  // Listing
  // ---------------------------------------------------------------------

  /** The three tests of the listing loop. */
  predicate Passes(settings: Settings, view: TopicListView, search: Option<string>, regex: Option<seq<string>>, name: string) {
    && settings.isSearchMatch(search, name)
    && IsListViewMatch(settings, view, name)
    && settings.isTopicMatchRegex(regex, name)
  }

  function PassesTest(settings: Settings, view: TopicListView, search: Option<string>, regex: Option<seq<string>>): string -> bool {
    name => Passes(settings, view, search, regex, name)
  }

  /** The listed names that pass all three tests, in listing order. */
  function SelectTopics(settings: Settings, view: TopicListView, search: Option<string>, regex: Option<seq<string>>, names: seq<string>): seq<string> {
    Filter(names, PassesTest(settings, view, search, regex))
  }

  /** One more listed name: the selection grows by that name exactly when
      it passes. */
  lemma SelectTopicsStep(settings: Settings, view: TopicListView, search: Option<string>, regex: Option<seq<string>>,
                         names: seq<string>, i: nat)
    requires i < |names|
    ensures SelectTopics(settings, view, search, regex, names[..i + 1]) ==
      SelectTopics(settings, view, search, regex, names[..i])
        + (if Passes(settings, view, search, regex, names[i]) then [names[i]] else [])
  {
    assert names[..i + 1][..i] == names[..i];
  }

  /** `all(clusterId, view, search)`: the listed names that pass the search,
      the view and the allowed patterns, sorted by lower-cased name, names
      equal after lower-casing keeping their listing order. */
  method ListNames(settings: Settings, upstream: Upstream, security: Security, view: TopicListView, search: Option<string>)
    returns (list: seq<string>)
    ensures var selected := SelectTopics(settings, view, search, Some(TopicFilterRegex(settings, security)), upstream.listTopics);
      && multiset(list) == multiset(selected)
      && Sorting.SortedByKey(list)
      && forall k :: Sorting.WithKey(list, k) == Sorting.WithKey(selected, k)
    ensures forall name :: name in list <==>
      name in upstream.listTopics && Passes(settings, view, search, Some(TopicFilterRegex(settings, security)), name)
  {
    ghost var regex := Some(TopicFilterRegex(settings, security));
    var names := upstream.listTopics;
    var filtered: seq<string> := [];
    for i := 0 to |names|
      invariant filtered == SelectTopics(settings, view, search, regex, names[..i])
    {
      var name := names[i];
      SelectTopicsStep(settings, view, search, regex, names, i);
      var topicFilterRegex := GetTopicFilterRegex(settings, security);
      if settings.isSearchMatch(search, name) && IsListViewMatch(settings, view, name)
        && settings.isTopicMatchRegex(topicFilterRegex, name)
      {
        filtered := filtered + [name];
      }
    }
    assert names[..|names|] == names;

    list := Sorting.SortByLowerCase(filtered);
    SelectedMembers(settings, view, search, regex, names, list);
  }

  /** A permutation of the selection holds exactly the names that pass. */
  lemma SelectedMembers(settings: Settings, view: TopicListView, search: Option<string>, regex: Option<seq<string>>,
                        names: seq<string>, list: seq<string>)
    requires multiset(list) == multiset(SelectTopics(settings, view, search, regex, names))
    ensures forall name :: name in list <==> name in names && Passes(settings, view, search, regex, name)
  {
    var selected := SelectTopics(settings, view, search, regex, names);
    FilterMembers(names, PassesTest(settings, view, search, regex));
    forall name
      ensures name in list <==> name in names && Passes(settings, view, search, regex, name)
    {
      assert name in list <==> name in multiset(selected);
      if name in selected {
        var i :| 0 <= i < |selected| && selected[i] == name;
      }
      if name in names && Passes(settings, view, search, regex, name) {
        var i :| 0 <= i < |names| && names[i] == name;
      }
    }
  }

  // ---------------------------------------------------------------------
  // Lookup
  // ---------------------------------------------------------------------

  /** `topicOffsets.get(name)`: absent is `null`. */
  function OffsetsOf(offsets: map<string, seq<Offsets>>, name: string): Option<seq<Offsets>> {
    if name in offsets then Some(offsets[name]) else None
  }

  /** The topic built for one visible description. */
  function TopicFor(settings: Settings, upstream: Upstream, description: TopicDescription, offsets: map<string, seq<Offsets>>): (r: Result<Topic, Error>)
    ensures r.Success? ==>
      && r.value.name == description.name
      && r.value.configInternal == IsInternalName(settings, description.name)
      && r.value.configStream == IsStreamName(settings, description.name)
      && (IsInternal(r.value) <==> description.internal || IsInternalName(settings, description.name))
      && (IsStream(r.value) <==> IsStreamName(settings, description.name))
      && r.value.consumerGroups == (if settings.skipConsumerGroups then [] else upstream.consumerGroups(description.name))
      && r.value.acls == upstream.acls(description.name)
      && |r.value.partitions| == |description.partitions|
    ensures r.Failure? && description.name !in offsets ==> r.error == OffsetsMissing(description.name)
    ensures r.Failure? && description.name in offsets ==> exists i ::
      && 0 <= i < |description.partitions|
      && r.error == PartitionOffsetsNotFound(description.partitions[i].id, description.name)
  {
    var r := BuildTopic(
      description,
      if settings.skipConsumerGroups then [] else upstream.consumerGroups(description.name),
      upstream.logDirs(description.name),
      OffsetsOf(offsets, description.name),
      upstream.acls(description.name),
      IsInternalName(settings, description.name),
      IsStreamName(settings, description.name));
    assert r.Failure? && description.name in offsets ==> exists i ::
      && 0 <= i < |description.partitions|
      && r.error == PartitionOffsetsNotFound(description.partitions[i].id, description.name)
    by {
      if r.Failure? && description.name in offsets {
        var i :| 0 <= i < |description.partitions|
          && PartitionFor(description.name, description.partitions[i], upstream.logDirs(description.name),
                          OffsetsOf(offsets, description.name)) == Failure(r.error);
      }
    }
    r
  }

  function VisibleTest(settings: Settings, regex: Option<seq<string>>): TopicDescription -> bool {
    (d: TopicDescription) => settings.isTopicMatchRegex(regex, d.name)
  }

  /** The descriptions whose names pass the allowed patterns, in order. */
  function Visible(settings: Settings, regex: Option<seq<string>>, descriptions: seq<TopicDescription>): seq<TopicDescription> {
    Filter(descriptions, VisibleTest(settings, regex))
  }

  /** Building the topic for a description, as a function of it. */
  function TopicOf(settings: Settings, upstream: Upstream, offsets: map<string, seq<Offsets>>): TopicDescription -> Result<Topic, Error> {
    (d: TopicDescription) => TopicFor(settings, upstream, d, offsets)
  }

  /** The loop of `findByName(clusterId, topics)`: one topic per visible
      description, in order, stopping at the first exception. */
  function FindTopics(settings: Settings, upstream: Upstream, regex: Option<seq<string>>,
                      descriptions: seq<TopicDescription>, offsets: map<string, seq<Offsets>>): Result<seq<Topic>, Error> {
    MapUntilFailure(Visible(settings, regex, descriptions), TopicOf(settings, upstream, offsets))
  }

  /** The loop yields the topic of every visible description, position by
      position, or the exception of the first visible description whose
      topic cannot be built. */
  lemma FindTopicsSpec(settings: Settings, upstream: Upstream, regex: Option<seq<string>>,
                       descriptions: seq<TopicDescription>, offsets: map<string, seq<Offsets>>)
    ensures var r := FindTopics(settings, upstream, regex, descriptions, offsets);
      var visible := Visible(settings, regex, descriptions);
      && (r.Success? ==> |r.value| == |visible|)
      && (r.Success? ==> forall k :: 0 <= k < |visible| ==> TopicFor(settings, upstream, visible[k], offsets) == Success(r.value[k]))
      && (r.Failure? ==> exists k ::
            && 0 <= k < |visible|
            && TopicFor(settings, upstream, visible[k], offsets) == Failure(r.error)
            && forall j :: 0 <= j < k ==> TopicFor(settings, upstream, visible[j], offsets).Success?)
  {
    MapUntilFailureSpec(Visible(settings, regex, descriptions), TopicOf(settings, upstream, offsets));
  }

  /** Every topic found has a name the allowed patterns accept. */
  lemma FindTopicsVisibleOnly(settings: Settings, upstream: Upstream, regex: Option<seq<string>>,
                              descriptions: seq<TopicDescription>, offsets: map<string, seq<Offsets>>)
    ensures var r := FindTopics(settings, upstream, regex, descriptions, offsets);
      r.Success? ==> forall k :: 0 <= k < |r.value| ==> settings.isTopicMatchRegex(regex, r.value[k].name)
  {
    var r := FindTopics(settings, upstream, regex, descriptions, offsets);
    var visible := Visible(settings, regex, descriptions);
    FindTopicsSpec(settings, upstream, regex, descriptions, offsets);
    FilterMembers(descriptions, VisibleTest(settings, regex));
    if r.Success? {
      forall k | 0 <= k < |r.value|
        ensures settings.isTopicMatchRegex(regex, r.value[k].name)
      {
        assert TopicFor(settings, upstream, visible[k], offsets) == Success(r.value[k]);
        assert VisibleTest(settings, regex)(visible[k]);
      }
    }
  }

  /** One more description: the loop skips it when its name is not
      allowed, and otherwise appends its topic or stops with its exception. */
  lemma FindTopicsStep(settings: Settings, upstream: Upstream, regex: Option<seq<string>>,
                       descriptions: seq<TopicDescription>, offsets: map<string, seq<Offsets>>, i: nat)
    requires i < |descriptions|
    requires FindTopics(settings, upstream, regex, descriptions[..i], offsets).Success?
    ensures var ts := FindTopics(settings, upstream, regex, descriptions[..i], offsets).value;
      FindTopics(settings, upstream, regex, descriptions[..i + 1], offsets) ==
        if !settings.isTopicMatchRegex(regex, descriptions[i].name) then Success(ts)
        else match TopicFor(settings, upstream, descriptions[i], offsets)
          case Failure(e) => Failure(e)
          case Success(t) => Success(ts + [t])
  {
    assert descriptions[..i + 1][..i] == descriptions[..i];
    var v := Visible(settings, regex, descriptions[..i]);
    if settings.isTopicMatchRegex(regex, descriptions[i].name) {
      var w := v + [descriptions[i]];
      assert Visible(settings, regex, descriptions[..i + 1]) == w;
      assert w[..|v|] == v;
      MapUntilFailureStep(w, TopicOf(settings, upstream, offsets), |v|);
      assert w[..|v| + 1] == w;
    }
  }

  /** Once the loop has thrown, the remaining descriptions do not matter. */
  lemma FindTopicsFailureSticks(settings: Settings, upstream: Upstream, regex: Option<seq<string>>,
                                descriptions: seq<TopicDescription>, offsets: map<string, seq<Offsets>>, n: nat)
    requires n <= |descriptions|
    requires FindTopics(settings, upstream, regex, descriptions[..n], offsets).Failure?
    ensures FindTopics(settings, upstream, regex, descriptions, offsets) == FindTopics(settings, upstream, regex, descriptions[..n], offsets)
  {
    var test := VisibleTest(settings, regex);
    FilterConcat(descriptions[..n], descriptions[n..], test);
    assert descriptions[..n] + descriptions[n..] == descriptions;
    var v1 := Visible(settings, regex, descriptions[..n]);
    var v := Visible(settings, regex, descriptions);
    assert v[..|v1|] == v1;
    MapFailureSticks(v, TopicOf(settings, upstream, offsets), |v1|);
  }

  /** `findByName(clusterId, topics)`: describes the topics, then builds a
      topic for every description whose name passes the allowed patterns. */
  method FindByNames(settings: Settings, upstream: Upstream, security: Security, topics: seq<string>)
    returns (r: Result<seq<Topic>, Error>)
    ensures r == FindTopics(settings, upstream, Some(TopicFilterRegex(settings, security)),
                            upstream.describeTopics(topics), upstream.describeTopicsOffsets(topics))
  {
    var descriptions := upstream.describeTopics(topics);
    var topicOffsets := upstream.describeTopicsOffsets(topics);
    var topicRegex := GetTopicFilterRegex(settings, security);
    var list: seq<Topic> := [];
    for i := 0 to |descriptions|
      invariant FindTopics(settings, upstream, topicRegex, descriptions[..i], topicOffsets) == Success(list)
    {
      var description := descriptions[i];
      FindTopicsStep(settings, upstream, topicRegex, descriptions, topicOffsets, i);
      if settings.isTopicMatchRegex(topicRegex, description.name) {
        var topic := NewTopic(
          description,
          if settings.skipConsumerGroups then [] else upstream.consumerGroups(description.name),
          upstream.logDirs(description.name),
          OffsetsOf(topicOffsets, description.name),
          upstream.acls(description.name),
          IsInternalName(settings, description.name),
          IsStreamName(settings, description.name));
        if topic.Failure? {
          FindTopicsFailureSticks(settings, upstream, topicRegex, descriptions, topicOffsets, i + 1);
          return Failure(topic.error);
        }
        list := list + [topic.value];
      }
    }
    assert descriptions[..|descriptions|] == descriptions;
    r := Success(list);
  }

  /** `findByName(clusterId, name)`: a name outside the allowed patterns is
      reported exactly like a topic the cluster does not have, and the
      cluster is not asked about it. */
  method FindByName(settings: Settings, upstream: Upstream, security: Security, name: string)
    returns (r: Result<Topic, Error>)
    ensures var regex := Some(TopicFilterRegex(settings, security));
      !settings.isTopicMatchRegex(regex, name) ==> r == Failure(TopicNotFound(name))
    ensures var regex := Some(TopicFilterRegex(settings, security));
      Visible(settings, regex, upstream.describeTopics([name])) == [] ==> r == Failure(TopicNotFound(name))
    ensures var regex := Some(TopicFilterRegex(settings, security));
      settings.isTopicMatchRegex(regex, name) ==>
        match FindTopics(settings, upstream, regex, upstream.describeTopics([name]), upstream.describeTopicsOffsets([name]))
        case Failure(e) => r == Failure(e)
        case Success(ts) => r == if ts == [] then Failure(TopicNotFound(name)) else Success(ts[0])
    ensures r.Success? ==> settings.isTopicMatchRegex(Some(TopicFilterRegex(settings, security)), r.value.name)
  {
    var topic: Option<Topic> := None;
    var topicRegex := GetTopicFilterRegex(settings, security);
    if settings.isTopicMatchRegex(topicRegex, name) {
      var found := FindByNames(settings, upstream, security, [name]);
      FindTopicsVisibleOnly(settings, upstream, topicRegex, upstream.describeTopics([name]), upstream.describeTopicsOffsets([name]));
      if found.Failure? {
        return Failure(found.error);
      }
      if found.value != [] {
        topic := Some(found.value[0]);
      }
    }
    r := if topic.Some? then Success(topic.value) else Failure(TopicNotFound(name));
  }
}
