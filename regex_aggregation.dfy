/**
 * The regex aggregation (src/aggregations/regex.rs): rewrites tag values
 * that match a per-key pattern before forwarding the message upstream. The
 * regex engine is the parameter `matches`; whether a pattern compiles is the
 * parameter `compiles`. Forwarding is the message the handler returns.
 */
module RegexAggregation {
  import opened Common
  import opened Metrics

  /** A compiled pattern and the value that replaces whatever it matches. */
  datatype Rule = Rule(pattern: string, replace: string)

  /** One configuration triple of `launch`: (tag key, replacement, pattern). */
  datatype RuleConfig = RuleConfig(key: string, replace: string, regex: string)

  /**
   * The rule table `launch` collects: one rule per key, a later triple
   * replacing an earlier one with the same key.
   */
  function BuildRules(config: seq<RuleConfig>): map<string, Rule>
  {
    if config == [] then map[]
    else
      var last := config[|config| - 1];
      BuildRules(config[..|config| - 1])[last.key := Rule(last.regex, last.replace)]
  }

  /** The table has a rule for exactly the keys the configuration names. */
  lemma {:induction false} BuildRulesKeys(config: seq<RuleConfig>, k: string)
    ensures k in BuildRules(config) <==> exists i :: 0 <= i < |config| && config[i].key == k
  {
    if config != [] {
      var n := |config|;
      var init := config[..n - 1];
      BuildRulesKeys(init, k);
      if k in BuildRules(init) {
        var i :| 0 <= i < |init| && init[i].key == k;
        assert config[i].key == k;
      }
      if exists i :: 0 <= i < n && config[i].key == k {
        var i :| 0 <= i < n && config[i].key == k;
        if i < n - 1 {
          assert init[i].key == k;
        }
      }
    }
  }

  /** A key's rule is built from the last triple naming that key. */
  lemma {:induction false} BuildRulesLastWins(config: seq<RuleConfig>, i: nat)
    requires i < |config|
    requires forall j :: i < j < |config| ==> config[j].key != config[i].key
    ensures config[i].key in BuildRules(config)
    ensures BuildRules(config)[config[i].key] == Rule(config[i].regex, config[i].replace)
  {
    var n := |config|;
    if i < n - 1 {
      var init := config[..n - 1];
      assert init[i] == config[i];
      BuildRulesLastWins(init, i);
      assert config[n - 1].key != config[i].key;
    }
  }

  /** `launch`: every pattern must compile, otherwise `unwrap` panics. */
  function Launch(config: seq<RuleConfig>, compiles: string -> bool): (rules: map<string, Rule>)
    requires forall i :: 0 <= i < |config| ==> compiles(config[i].regex)
    ensures forall k :: k in rules ==> compiles(rules[k].pattern)
  {
    LaunchCompiles(config, compiles);
    BuildRules(config)
  }

  /** Every rule in the table comes from some triple of the configuration. */
  lemma {:induction false} LaunchCompiles(config: seq<RuleConfig>, compiles: string -> bool)
    requires forall i :: 0 <= i < |config| ==> compiles(config[i].regex)
    ensures forall k :: k in BuildRules(config) ==> compiles(BuildRules(config)[k].pattern)
  {
    if config != [] {
      LaunchCompiles(config[..|config| - 1], compiles);
    }
  }

  /** What `filter_tags` does to one tag. */
  function Rewrite(rules: map<string, Rule>, matches: (string, string) -> bool, tag: Tag): Tag
  {
    if tag.key in rules && matches(rules[tag.key].pattern, tag.value)
    then Tag(tag.key, rules[tag.key].replace)
    else tag
  }

  /** The tags after `filter_tags`: each rewritten on its own. */
  function FilteredTags(rules: map<string, Rule>, matches: (string, string) -> bool, tags: Tags): (r: Tags)
    ensures |r| == |tags|
    ensures forall i :: 0 <= i < |tags| ==> r[i] == Rewrite(rules, matches, tags[i])
  {
    seq(|tags|, i requires 0 <= i < |tags| => Rewrite(rules, matches, tags[i]))
  }

  /** `filter_tags`: overwrites, in place, the value of every tag its key's rule matches. */
  method FilterTags(rules: map<string, Rule>, matches: (string, string) -> bool, msg: Measurement)
    returns (filtered: Measurement)
    ensures filtered == msg.(tags := FilteredTags(rules, matches, msg.tags))
  {
    var tags := msg.tags;
    var i := 0;
    while i < |tags|
      invariant 0 <= i <= |tags| == |msg.tags|
      invariant forall k :: 0 <= k < i ==> tags[k] == Rewrite(rules, matches, msg.tags[k])
      invariant forall k :: i <= k < |tags| ==> tags[k] == msg.tags[k]
    {
      var tag := tags[i];
      if tag.key in rules {
        var rule := rules[tag.key];
        if matches(rule.pattern, tag.value) {
          tags := tags[i := Tag(tag.key, rule.replace)];
        }
      }
      i := i + 1;
    }
    filtered := msg.(tags := tags);
  }

  /**
   * A tag's value is replaced by its rule's replacement exactly when its key
   * has a rule whose pattern matches the value; keys and order never change.
   */
  lemma RewriteCases(rules: map<string, Rule>, matches: (string, string) -> bool, tags: Tags, i: nat)
    requires i < |tags|
    ensures FilteredTags(rules, matches, tags)[i].key == tags[i].key
    ensures tags[i].key in rules && matches(rules[tags[i].key].pattern, tags[i].value)
            ==> FilteredTags(rules, matches, tags)[i].value == rules[tags[i].key].replace
    ensures !(tags[i].key in rules && matches(rules[tags[i].key].pattern, tags[i].value))
            ==> FilteredTags(rules, matches, tags)[i].value == tags[i].value
  {
  }

  /** Filtering twice is filtering once: a replacement either matches again and replaces itself, or is left alone. */
  lemma FilterIdempotent(rules: map<string, Rule>, matches: (string, string) -> bool, tags: Tags)
    ensures FilteredTags(rules, matches, FilteredTags(rules, matches, tags)) == FilteredTags(rules, matches, tags)
  {
    var once := FilteredTags(rules, matches, tags);
    var twice := FilteredTags(rules, matches, once);
    forall i | 0 <= i < |tags|
      ensures twice[i] == once[i]
    {
      var t := tags[i];
      if t.key in rules && matches(rules[t.key].pattern, t.value) {
        assert once[i] == Tag(t.key, rules[t.key].replace);
      } else {
        assert once[i] == t;
      }
    }
  }

  /** The message `handle` forwards: every measurement of a list, or the single one, filtered. */
  function FilteredMessage(rules: map<string, Rule>, matches: (string, string) -> bool, msg: Message): Message
  {
    match msg
    case Single(m) => Single(m.(tags := FilteredTags(rules, matches, m.tags)))
    case List(ms) =>
      List(seq(|ms|, i requires 0 <= i < |ms| => ms[i].(tags := FilteredTags(rules, matches, ms[i].tags))))
  }

  /** `handle`: filters the message in place, then sends it upstream; the result is what is sent. */
  method Handle(rules: map<string, Rule>, matches: (string, string) -> bool, msg: Message) returns (sent: Message)
    ensures sent == FilteredMessage(rules, matches, msg)
  {
    match msg {
      case Single(m) =>
        var filtered := FilterTags(rules, matches, m);
        sent := Single(filtered);
      case List(ms) =>
        var out := ms;
        var i := 0;
        while i < |out|
          invariant 0 <= i <= |out| == |ms|
          invariant forall k :: 0 <= k < i ==> out[k] == ms[k].(tags := FilteredTags(rules, matches, ms[k].tags))
          invariant forall k :: i <= k < |out| ==> out[k] == ms[k]
        {
          var filtered := FilterTags(rules, matches, out[i]);
          out := out[i := filtered];
          i := i + 1;
        }
        sent := List(out);
    }
  }

  /**
   * Forwarding keeps the message's shape: the same variant, the same number
   * of measurements, and in each only the tag values can differ.
   */
  lemma FilteredMessageShape(rules: map<string, Rule>, matches: (string, string) -> bool, msg: Message)
    ensures var sent := FilteredMessage(rules, matches, msg);
            && (sent.Single? <==> msg.Single?)
            && (msg.Single? ==> sent.measurement.(tags := msg.measurement.tags) == msg.measurement
                                && Keys(sent.measurement.tags) == Keys(msg.measurement.tags))
            && (msg.List? ==> |sent.measurements| == |msg.measurements|)
            && (msg.List? ==>
                  forall i :: 0 <= i < |msg.measurements| ==>
                    && sent.measurements[i].(tags := msg.measurements[i].tags) == msg.measurements[i]
                    && Keys(sent.measurements[i].tags) == Keys(msg.measurements[i].tags))
  {
  }
}
