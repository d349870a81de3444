/** src/utils/Configurer.py: loading settings into an object's existing
    attributes, and filtering a pretrained state dict before merging it
    into a model's state dict. */
module Configuration {
  import opened Wrappers
  import opened PyStrings

  /** The attributes after loading `settings` into an object whose attributes are `attrs`. */
  function Loaded<V>(attrs: map<string, V>, settings: map<string, Option<V>>): (r: map<string, V>)
    ensures r.Keys == attrs.Keys
    ensures forall a | a in attrs && (a !in settings || settings[a].None?) :: r[a] == attrs[a]
    ensures forall a | a in attrs && a in settings && settings[a].Some? :: r[a] == settings[a].value
  {
    map a | a in attrs :: if a in settings && settings[a].Some? then settings[a].value else attrs[a]
  }

  /** Loading the same settings a second time changes nothing. */
  lemma LoadTwiceIsLoadOnce<V>(attrs: map<string, V>, settings: map<string, Option<V>>)
    ensures Loaded(Loaded(attrs, settings), settings) == Loaded(attrs, settings)
  {
  }

  /** `any(excluded_layer in layer for excluded_layer in exclusions)`. */
  predicate MatchesAny(layer: string, exclusions: seq<string>)
  {
    exists i | 0 <= i < |exclusions| :: Contains(layer, exclusions[i])
  }

  /** The pretrained entries that survive the exclusions. */
  function Surviving<V>(pretrained: map<string, V>, exclusions: seq<string>): (r: map<string, V>)
    ensures forall k | k in r :: k in pretrained && r[k] == pretrained[k]
    ensures forall k, i | k in r && 0 <= i < |exclusions| :: !Contains(k, exclusions[i])
    ensures forall k | k in pretrained && !MatchesAny(k, exclusions) :: k in r
  {
    map k | k in pretrained && !MatchesAny(k, exclusions) :: pretrained[k]
  }

  /** With no exclusion nothing is deleted. */
  lemma NoExclusionKeepsAll<V>(pretrained: map<string, V>)
    ensures Surviving(pretrained, []) == pretrained
  {
  }

  /** An exclusion that is the empty string deletes every pretrained entry. */
  lemma EmptyExclusionDeletesAll<V>(pretrained: map<string, V>, exclusions: seq<string>)
    requires "" in exclusions
    ensures Surviving(pretrained, exclusions) == map[]
  {
    forall k | k in pretrained ensures MatchesAny(k, exclusions) {
      ContainsTrivial(k);
    }
  }

  /** An object mixing in Configurer: `hasattr(self, name)` is `name in attributes`. */
  class Configurer<V> {
    var attributes: map<string, V>

    constructor (attributes: map<string, V>)
      ensures this.attributes == attributes
    {
      this.attributes := attributes;
    }

    /** `load_configuration(settings)`; a None value is `Option.None`. */
    method LoadConfiguration(settings: map<string, Option<V>>)
      modifies this
      ensures attributes == Loaded(old(attributes), settings)
    {
      var todo := settings.Keys;
      ghost var done: set<string> := {};
      while todo != {}
        invariant todo + done == settings.Keys && todo !! done
        invariant attributes == Loaded(old(attributes), map a | a in done :: settings[a])
        decreases todo
      {
        var attr :| attr in todo;
        if attr in attributes {
          var value := settings[attr];
          if value.Some? {
            attributes := attributes[attr := value.value];
          }
        }
        todo := todo - {attr};
        done := done + {attr};
      }
      assert (map a | a in done :: settings[a]) == settings;
    }
  }

  /** A state dict, updated in place. */
  class StateDict<V> {
    var entries: map<string, V>

    constructor (entries: map<string, V>)
      ensures this.entries == entries
    {
      this.entries := entries;
    }
  }

  /** `checkpoint_filter(model, pretrained, *exclusions)`: deletes the
      excluded layers from `pretrained` in place, merges what is left into
      `model` in place and returns `model`. The two may be the same object. */
  method CheckpointFilter<V>(model: StateDict<V>, pretrained: StateDict<V>, exclusions: seq<string>)
    returns (r: StateDict<V>)
    modifies model, pretrained
    ensures r == model
    ensures pretrained.entries == Surviving(old(pretrained.entries), exclusions)
    ensures model.entries == if model == pretrained then Surviving(old(pretrained.entries), exclusions)
                             else old(model.entries) + Surviving(old(pretrained.entries), exclusions)
  {
    var layers := pretrained.entries.Keys;
    while layers != {}
      invariant layers <= old(pretrained.entries).Keys
      invariant pretrained.entries == map k | k in old(pretrained.entries) && (k in layers || !MatchesAny(k, exclusions)) :: old(pretrained.entries)[k]
      invariant model != pretrained ==> model.entries == old(model.entries)
      decreases layers
    {
      var layer :| layer in layers;
      if MatchesAny(layer, exclusions) {
        pretrained.entries := pretrained.entries - {layer};
      }
      layers := layers - {layer};
    }
    model.entries := model.entries + pretrained.entries;
    r := model;
  }
}
