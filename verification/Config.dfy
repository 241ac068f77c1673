/**
 * Configuration objects: built from nested arrays, merged in place with an array or with
 * another object, and converted back to an array.
 *
 * `Node` is what a tree of objects looks like from outside.  An array that merging stored
 * under a new key stays an array: it is a leaf, not an object.
 */
module ConfigTree {

  /** A PHP value with string keys. */
  datatype Data = Scalar(text: string) | Array(items: map<string, Data>)

  datatype Node = Leaf(data: Data) | Branch(children: map<string, Node>)

  // -------------------------------------------------------------------------
  // What the operations mean
  // -------------------------------------------------------------------------

  /** Construction turns arrays into objects, at every depth. */
  function Built(d: Data): Node {
    match d
    case Scalar(_) => Leaf(d)
    case Array(items) => Branch(map k | k in items :: Built(items[k]))
  }

  /** Conversion turns objects into arrays, and leaves stored arrays as they are. */
  function Flattened(n: Node): Data {
    match n
    case Leaf(d) => d
    case Branch(children) => Array(map k | k in children :: Flattened(children[k]))
  }

  /** Merging an array into a node: only objects are merged into, anything else is replaced. */
  function MergedArray(n: Node, d: Data): Node {
    if n.Branch? && d.Array? then
      Branch(map k | k in n.children.Keys + d.items.Keys ::
        if k !in d.items then n.children[k]
        else if k in n.children then MergedArray(n.children[k], d.items[k])
        else Leaf(d.items[k]))
    else Leaf(d)
  }

  /** Merging an object into a node: its values are taken over as they are, objects included. */
  function MergedNode(n: Node, u: Node): Node {
    if n.Branch? && u.Branch? then
      Branch(map k | k in n.children.Keys + u.children.Keys ::
        if k !in u.children then n.children[k]
        else if k in n.children then MergedNode(n.children[k], u.children[k])
        else u.children[k])
    else if n.Branch? && u.Leaf? then MergedArray(n, u.data)
    else u
  }

  /** The right-biased recursive merge of two nested arrays. */
  function DeepMerge(a: Data, b: Data): Data {
    if a.Array? && b.Array? then
      Array(map k | k in a.items.Keys + b.items.Keys ::
        if k !in b.items then a.items[k]
        else if k in a.items then DeepMerge(a.items[k], b.items[k])
        else b.items[k])
    else b
  }

  // -------------------------------------------------------------------------
  // The objects
  // -------------------------------------------------------------------------

  datatype Setting = Plain(data: Data) | Nested(config: Config)

  class Config {
    var props: map<string, Setting>
    ghost var Repr: set<object>

    /** The objects below form a tree. */
    ghost predicate Valid()
      reads this, Repr
      decreases Repr
    {
      && this in Repr
      && (forall k :: k in props && props[k].Nested? ==>
            && props[k].config in Repr && props[k].config.Repr <= Repr
            && this !in props[k].config.Repr && props[k].config.Valid())
      && (forall k, l :: k in props && l in props && k != l && props[k].Nested? && props[l].Nested? ==>
            props[k].config.Repr !! props[l].config.Repr)
    }

    ghost function NodeAt(k: string): Node
      requires Valid() && k in props
      reads this, Repr
      decreases Repr, 0
    {
      match props[k]
      case Plain(d) => Leaf(d)
      case Nested(c) => c.View()
    }

    /** The tree below this object. */
    ghost function View(): (n: Node)
      requires Valid()
      reads this, Repr
      ensures n.Branch? && n.children.Keys == props.Keys
      ensures forall k :: k in props ==> n.children[k] == NodeAt(k)
      decreases Repr, 1
    {
      Branch(map k | k in props :: NodeAt(k))
    }

    lemma ViewIs(n: Node)
      requires Valid() && n.Branch? && n.children.Keys == props.Keys
      requires forall k :: k in props ==> n.children[k] == NodeAt(k)
      ensures View() == n
    {
    }

    /** Builds the tree of a nested array. */
    constructor (given: Data)
      requires given.Array?
      ensures Valid() && fresh(Repr)
      ensures View() == Built(given)
      decreases given, 1
    {
      props := map[];
      Repr := {this};
      new;
      ViewIs(Branch(map[]));
      Val(given);
      assert View().children == Built(given).children;
    }

    /** Sets the entries of an array, with a new object for each array among them. */
    method Val(given: Data)
      requires Valid() && given.Array?
      modifies this
      ensures Valid() && fresh(Repr - old(Repr))
      ensures View() == Branch(old(View()).children + Built(given).children)
      decreases given, 0
    {
      hide Valid, View, NodeAt, Built, SetChild, PartlySet;
      ghost var was := View();
      NothingSet(was, given);
      var keys := given.items.Keys;
      while keys != {}
        invariant Valid() && fresh(Repr - old(Repr))
        invariant keys <= given.items.Keys && PartlySet(was, given, keys, View())
        decreases |keys|
      {
        var key :| key in keys;
        OneMoreSet(was, given, keys, View(), key);
        SetEntry(key, given.items[key]);
        keys := keys - {key};
      }
      AllSet(was, given, View());
    }

    /** One entry of an array: an object of its own for an array, or the value. */
    method SetEntry(key: string, value: Data)
      requires Valid()
      modifies this
      ensures Valid() && fresh(Repr - old(Repr))
      ensures View() == SetChild(old(View()), key, Built(value))
      decreases value, 2
    {
      if value.Array? {
        var instance := new Config(value);
        OffsetSet(key, Nested(instance));
      } else {
        OffsetSet(key, Plain(value));
      }
    }

    /** The object may stand under this key: it shares nothing with what stands under the others. */
    ghost predicate Fits(key: string, c: Config)
      requires Valid()
      reads this, Repr, c
    {
      this !in c.Repr && forall k :: k in props && k != key ==> ReprOf(props[k]) !! c.Repr
    }

    /** Sets a property, to a plain value or to an object that fits. */
    method OffsetSet(key: string, value: Setting)
      requires Valid()
      requires value.Nested? ==> value.config.Valid() && Fits(key, value.config)
      modifies this
      ensures Valid()
      ensures Repr == old(Repr) + ReprOf(value) && props == old(props)[key := value]
      ensures View() == SetChild(old(View()), key, old(NodeOf(value)))
    {
      hide View;
      ThisIsAbove();
      ghost var was := View();
      ghost var child := NodeOf(value);
      props := props[key := value];
      if value.Nested? {
        Repr := Repr + value.config.Repr;
      }
      ViewIs(SetChild(was, key, child));
    }

    /** Merges an array into the object under a key; nothing else changes. */
    method MergeBelow(key: string, with: Data)
      requires Valid() && with.Array? && key in props && props[key].Nested?
      modifies props[key].config.Repr
      ensures Valid() && Repr == old(Repr) && props == old(props)
      ensures ReprOf(props[key]) == old(ReprOf(props[key]))
      ensures View() == SetChild(old(View()), key, MergedArray(old(View()).children[key], with))
      decreases with, 1
    {
      ghost var was := View();
      props[key].config.MergeArray(with);
      ViewIs(SetChild(was, key, MergedArray(was.children[key], with)));
    }

    /** One entry of a merged array: merged into an object, or stored as it is. */
    method MergeEntry(key: string, value: Data)
      requires Valid()
      modifies Repr
      ensures Valid() && Repr == old(Repr)
      ensures View() == SetChild(old(View()), key, MergedUnder(old(View()), key, value))
      decreases value, 2
    {
      if key in props && value.Array? && props[key].Nested? {
        MergeBelow(key, value);
      } else {
        OffsetSet(key, Plain(value));
      }
    }

    /** Merges a nested array into the tree, in place. */
    method MergeArray(with: Data)
      requires Valid() && with.Array?
      modifies Repr
      ensures Valid() && Repr == old(Repr)
      ensures View() == MergedArray(old(View()), with)
      decreases with, 0
    {
      hide Valid, View, NodeAt, MergedArray, SetChild, MergedUnder, PartlyMerged;
      ghost var was := View();
      NothingMerged(was, with);
      var keys := with.items.Keys;
      while keys != {}
        invariant Valid() && Repr == old(Repr)
        invariant keys <= with.items.Keys && PartlyMerged(was, with, keys, View())
        decreases |keys|
      {
        var key :| key in keys;
        OneMoreMergedIn(was, with, keys, View(), key);
        MergeEntry(key, with.items[key]);
        keys := keys - {key};
      }
      AllMerged(was, with, View());
    }

    /** The objects that a merge under this key may change. */
    ghost function BelowKey(key: string): set<object>
      reads this, if key in props && props[key].Nested? then {props[key].config} else {}
    {
      if key in props then ReprOf(props[key]) else {}
    }

    /** The two trees share objects only whole, and only where both hold the same one in the same place. */
    ghost predicate Aligned(with: Config)
      requires Valid() && with.Valid()
      reads this, Repr, with, with.Repr
      decreases Repr
    {
      this == with || (
        && this !in with.Repr && with !in Repr
        && (forall k, l :: k in props && l in with.props && k != l ==> ReprOf(props[k]) !! ReprOf(with.props[l]))
        && (forall k :: k in props && k in with.props && props[k].Nested? && with.props[k].Nested? ==>
              props[k].config.Aligned(with.props[k].config)))
    }

    /** Alignment of two trees, but for what stands under one key here. */
    ghost predicate AlignedElsewhere(with: Config, key: string)
      requires Valid() && with.Valid()
      reads this, Repr, with, with.Repr
    {
      && this !in with.Repr && with !in Repr
      && (forall k, l :: k in props && l in with.props && k != l && k != key ==>
            ReprOf(props[k]) !! ReprOf(with.props[l]))
      && (forall k :: k in props && k in with.props && k != key && props[k].Nested? && with.props[k].Nested? ==>
            props[k].config.Aligned(with.props[k].config))
    }

    /** Alignment of what stands under that key. */
    ghost predicate AlignedThere(with: Config, key: string)
      requires Valid() && with.Valid() && key in props && key in with.props
      reads this, Repr, with, with.Repr
    {
      && (forall l :: l in with.props && l != key ==> ReprOf(props[key]) !! ReprOf(with.props[l]))
      && (props[key].Nested? && with.props[key].Nested? ==> props[key].config.Aligned(with.props[key].config))
    }

    lemma AlignedApart(with: Config, key: string)
      requires Valid() && with.Valid() && Aligned(with) && this != with && key in with.props
      ensures AlignedElsewhere(with, key)
      ensures key in props ==> AlignedThere(with, key)
    {
      hide Valid;
    }

    lemma AlignedTogether(with: Config, key: string)
      requires Valid() && with.Valid() && key in props && key in with.props
      requires AlignedElsewhere(with, key) && AlignedThere(with, key)
      ensures Aligned(with)
    {
      hide Valid;
    }

    /** Trees that share nothing are aligned. */
    lemma DisjointAreAligned(with: Config)
      requires Valid() && with.Valid() && Repr !! with.Repr
      ensures Aligned(with)
      decreases Repr
    {
      forall k | k in props && k in with.props && props[k].Nested? && with.props[k].Nested?
        ensures props[k].config.Aligned(with.props[k].config)
      {
        props[k].config.DisjointAreAligned(with.props[k].config);
      }
    }

    /** One property has been merged, and the other tree is as it was. */
    ghost predicate MergedAt(with: Config, key: string, start: Start)
      requires key in start.others
      reads this, Repr, with, with.Repr
    {
      && Valid() && with.Valid() && Aligned(with) && Repr <= start.repr + start.withRepr
      && with.View() == start.tree && with.props == start.others && with.Repr == start.withRepr
      && start.was.Branch? && start.tree.Branch? && key in start.tree.children
      && View() == SetChild(start.was, key, MergedNodeUnder(start.was, key, start.tree.children[key]))
      && SameButAt(start.mine, props, key, start.others[key])
    }

    /** The two trees as they are now. */
    ghost function Now(with: Config): Start
      requires Valid() && with.Valid()
      reads this, Repr, with, with.Repr
    {
      Start(View(), with.View(), props, with.props, Repr, with.Repr)
    }

    /** The value of a property is taken over as it is, an object included. */
    method StoreProperty(with: Config, key: string)
      requires Valid() && with.Valid() && Aligned(with) && key in with.props
      requires key in props && props[key].Nested? ==> with.props[key].Plain? && with.props[key].data.Scalar?
      modifies this
      ensures MergedAt(with, key, old(Now(with)))
      ensures forall k :: k != key ==> BelowKey(k) == old(BelowKey(k))
    {
      ghost var start := Now(with);
      if this == with {
        assert SetChild(start.was, key, start.was.children[key]) == start.was;
        OffsetSet(key, with.props[key]);
      } else {
        StoreFromOther(with, key);
      }
    }

    /** The same, when the value is a property of another tree. */
    method StoreFromOther(with: Config, key: string)
      requires Valid() && with.Valid() && Aligned(with) && key in with.props && this != with
      requires key in props && props[key].Nested? ==> with.props[key].Plain? && with.props[key].data.Scalar?
      modifies this
      ensures MergedAt(with, key, old(Now(with)))
      ensures forall k :: k != key ==> BelowKey(k) == old(BelowKey(k))
    {
      hide *;
      ghost var start := Now(with);
      AlignedApart(with, key);
      with.ChildIsBelow(key);
      StoredProperty(key, with.props[key]);
      NowIs(with);
      AlignedOutside(with, key);
      if with.props[key].Nested? {
        AlignedFits(with, key);
      }
      ShareProperty(with, key);
      AlignmentRemains(with);
      SharedIsAligned(with, key);
      AlignedTogether(with, key);
      SubsetOfUnion(start.repr, start.withRepr, old(ReprOf(with.props[key])));
      IsMergedAt(with, key, start);
    }

    lemma NowIs(with: Config)
      requires Valid() && with.Valid()
      ensures Now(with) == Start(View(), with.View(), props, with.props, Repr, with.Repr)
    {
    }

    lemma StoredProperty(key: string, value: Setting)
      requires Valid() && (value.Nested? ==> value.config.Valid())
      requires key in props && props[key].Nested? ==> value.Plain? && value.data.Scalar?
      ensures MergedNodeUnder(View(), key, NodeOf(value)) == NodeOf(value)
      ensures SameButAt(props, props[key := value], key, value)
    {
    }

    lemma IsMergedAt(with: Config, key: string, start: Start)
      requires key in start.others && start.was.Branch? && start.tree.Branch? && key in start.tree.children
      requires Valid() && with.Valid() && Aligned(with) && Repr <= start.repr + start.withRepr
      requires with.View() == start.tree && with.props == start.others && with.Repr == start.withRepr
      requires View() == SetChild(start.was, key, MergedNodeUnder(start.was, key, start.tree.children[key]))
      requires SameButAt(start.mine, props, key, start.others[key])
      ensures MergedAt(with, key, start)
    {
      hide Valid, View, Aligned, SetChild, SameButAt, MergedNodeUnder;
    }

    lemma ChildIsBelow(key: string)
      requires Valid() && key in props
      ensures ReprOf(props[key]) <= Repr && (props[key].Nested? ==> props[key].config.Valid())
      ensures NodeOf(props[key]) == NodeAt(key) == View().children[key]
      ensures props[key].Plain? ==> View().children[key] == Leaf(props[key].data)
    {
    }

    /** Stores the property of the other tree, which leaves everything else alone on both sides. */
    method ShareProperty(with: Config, key: string)
      requires Valid() && with.Valid() && key in with.props && this !in with.Repr && with !in Repr
      requires with.props[key].Nested? ==> with.props[key].config.Valid() && Fits(key, with.props[key].config)
      modifies this
      ensures Valid() && with.Valid() && OthersRemain(with, key)
      ensures Repr == old(Repr) + old(ReprOf(with.props[key])) && props == old(props)[key := with.props[key]]
      ensures View() == SetChild(old(View()), key, old(with.View()).children[key])
      ensures with.View() == old(with.View()) && with.props == old(with.props) && with.Repr == old(with.Repr)
      ensures forall k :: k != key ==> BelowKey(k) == old(BelowKey(k))
    {
      hide Valid, View, NodeAt, NodeOf, Aligned, SetChild, Fits;
      ThisIsAbove();
      with.ThisIsAbove();
      with.ChildIsBelow(key);
      OutsideIsNotBelow(with);
      with.OutsideIsNotBelow(this);
      OffsetSet(key, with.props[key]);
    }

    lemma AlignedOutside(with: Config, key: string)
      requires Valid() && with.Valid() && AlignedElsewhere(with, key)
      ensures this !in with.Repr && with !in Repr
    {
    }

    /** An object that may stand here because the other tree holds it under the same key. */
    lemma AlignedFits(with: Config, key: string)
      requires Valid() && with.Valid() && AlignedElsewhere(with, key) && key in with.props && with.props[key].Nested?
      ensures with.props[key].config.Valid() && Fits(key, with.props[key].config)
    {
    }

    lemma ThisIsAbove()
      requires Valid()
      ensures this in Repr && forall k :: k in props ==> this !in ReprOf(props[k])
      ensures forall k :: k in props && props[k].Nested? ==>
                props[k].config.Valid() && props[k].config in ReprOf(props[k])
    {
    }

    lemma OutsideIsNotBelow(o: object)
      requires Valid() && o !in Repr
      ensures forall k :: k in props ==> o !in ReprOf(props[k])
    {
    }

    /** A change under one key leaves alone what stands under the others, here and in the other tree. */
    twostate predicate OthersRemain(with: Config, key: string)
      requires old(Valid()) && old(with.Valid()) && Valid() && with.Valid()
      reads this, Repr, with, with.Repr
    {
      && this !in with.Repr && with !in Repr && with.props == old(with.props)
      && (forall k :: k != key ==> (k in props <==> k in old(props)))
      && (forall k :: k in props && k != key ==>
            props[k] == old(props)[k] && ReprOf(props[k]) == old(ReprOf(props[k])))
      && (forall l :: l in with.props ==> ReprOf(with.props[l]) == old(ReprOf(with.props[l])))
      && (forall k :: k in props && k in with.props && k != key && props[k].Nested? && with.props[k].Nested? ==>
            (old(props[k].config.Aligned(with.props[k].config)) ==> props[k].config.Aligned(with.props[k].config)))
    }

    twostate lemma AlignmentRemains(with: Config)
      requires old(Valid()) && old(with.Valid()) && Valid() && with.Valid()
      ensures forall key :: OthersRemain(with, key) && old(AlignedElsewhere(with, key)) ==>
                AlignedElsewhere(with, key)
    {
      hide Valid, Aligned, ReprOf;
    }

    /** A shared object stands aligned. */
    lemma SharedIsAligned(with: Config, key: string)
      requires Valid() && with.Valid() && key in props && key in with.props && props[key] == with.props[key]
      ensures AlignedThere(with, key)
    {
    }

    lemma SelfIsAligned()
      requires Valid()
      ensures forall k :: k in props && props[k].Nested? ==>
                props[k].config.Valid() && props[k].config.Aligned(props[k].config)
    {
    }

    /** A tree remains what it is, if all that stands directly below it does. */
    twostate lemma Remains(with: Config)
      requires old(with.Valid())
      requires with.props == old(with.props) && with.Repr == old(with.Repr)
      requires forall l :: l in with.props && with.props[l].Nested? ==>
                 && with.props[l].config.Valid()
                 && with.props[l].config.Repr == old(with.props[l].config.Repr)
                 && with.props[l].config.View() == old(with.props[l].config.View())
      ensures with.Valid() && with.View() == old(with.View())
    {
      assert with.Valid();
      with.ViewIs(old(with.View()));
    }

    /** An array is merged into the object that stands here. */
    method MergeArrayProperty(with: Config, key: string)
      requires Valid() && with.Valid() && Aligned(with) && key in with.props
      requires key in props && props[key].Nested? && with.props[key].Plain? && with.props[key].data.Array?
      modifies BelowKey(key)
      ensures MergedAt(with, key, old(Now(with)))
      ensures forall k :: k != key ==> BelowKey(k) == old(BelowKey(k))
    {
      hide *;
      DifferentKinds(with, key);
      AlignedApart(with, key);
      ghost var start := Now(with);
      with.ChildIsBelow(key);
      NowIs(with);
      KeptProperty(key, start.tree.children[key]);
      AlignedOutside(with, key);
      MergeArrayBelow(with, key);
      AlignmentRemains(with);
      AlignedTogether(with, key);
      IsMergedAt(with, key, start);
    }

    /** Merges the array, which leaves everything else alone on both sides. */
    method MergeArrayBelow(with: Config, key: string)
      requires Valid() && with.Valid() && this !in with.Repr && with !in Repr
      requires key in with.props && key in props && AlignedThere(with, key)
      requires props[key].Nested? && with.props[key].Plain? && with.props[key].data.Array?
      modifies BelowKey(key)
      ensures Valid() && with.Valid() && OthersRemain(with, key)
      ensures Repr == old(Repr) && props == old(props)
      ensures View() == SetChild(old(View()), key, MergedArray(old(View()).children[key], with.props[key].data))
      ensures with.View() == old(with.View()) && with.props == old(with.props) && with.Repr == old(with.Repr)
      ensures AlignedThere(with, key)
      ensures forall k :: k != key ==> BelowKey(k) == old(BelowKey(k))
    {
      hide Valid, View, NodeAt, NodeOf, Aligned, SetChild, MergedArray;
      ThisIsAbove();
      with.ThisIsAbove();
      OutsideIsNotBelow(with);
      with.OutsideIsNotBelow(this);
      SiblingsAreApart(key);
      MergeBelow(key, with.props[key].data);
      Remains(with);
    }

    lemma SiblingsAreApart(key: string)
      requires Valid() && key in props
      ensures forall k :: k in props && k != key ==> ReprOf(props[k]) !! ReprOf(props[key])
    {
    }

    lemma DifferentKinds(with: Config, key: string)
      requires key in props && key in with.props && props[key] != with.props[key]
      ensures this != with
    {
    }

    lemma KeptProperty(key: string, u: Node)
      requires Valid() && key in props && props[key].Nested?
      ensures forall value: Setting :: value.Nested? || value.data.Array? ==> SameButAt(props, props, key, value)
      ensures MergedNodeUnder(View(), key, u) == MergedNode(View().children[key], u)
      ensures u.Leaf? && u.data.Array? ==> MergedNodeUnder(View(), key, u) == MergedArray(View().children[key], u.data)
    {
      hide MergedArray;
    }

    /** An object is merged into the object that stands here, which may be the same one. */
    method MergeObjectProperty(with: Config, key: string)
      requires Valid() && with.Valid() && Aligned(with) && key in with.props
      requires key in props && props[key].Nested? && with.props[key].Nested?
      modifies this, BelowKey(key)
      ensures MergedAt(with, key, old(Now(with)))
      ensures forall k :: k != key ==> BelowKey(k) == old(BelowKey(k))
      decreases with.Repr, 0, 0
    {
      if this == with {
        MergeOwnObject(key);
      } else {
        MergeOtherObject(with, key);
      }
    }

    /** Merging an object into itself. */
    method MergeOwnObject(key: string)
      requires Valid() && key in props && props[key].Nested?
      modifies this, BelowKey(key)
      ensures MergedAt(this, key, old(Now(this)))
      ensures forall k :: k != key ==> BelowKey(k) == old(BelowKey(k))
      decreases Repr, 0, 0, 0
    {
      ghost var start := Now(this);
      SelfIsAligned();
      SiblingsAreApart(key);
      ShareAndMerge(key, props[key].config);
      assert SetChild(start.was, key, start.was.children[key]) == start.was;
    }

    /** Merging a property of another tree, which may be the very object that stands here. */
    method MergeOtherObject(with: Config, key: string)
      requires Valid() && with.Valid() && Aligned(with) && key in with.props && this != with
      requires key in props && props[key].Nested? && with.props[key].Nested?
      modifies this, BelowKey(key)
      ensures MergedAt(with, key, old(Now(with)))
      ensures forall k :: k != key ==> BelowKey(k) == old(BelowKey(k))
      decreases with.Repr, 0, 0, 1
    {
      hide *;
      AlignedApart(with, key);
      ghost var start := Now(with);
      with.ChildIsBelow(key);
      NowIs(with);
      KeptProperty(key, start.tree.children[key]);
      AlignedOutside(with, key);
      AlignedFits(with, key);
      MergeObjectBelow(with, key);
      AlignmentRemains(with);
      AlignedTogether(with, key);
      SubsetOfUnion(start.repr, start.withRepr, old(ReprOf(with.props[key])));
      IsMergedAt(with, key, start);
    }

    /** Merges the object, which leaves everything else alone on both sides. */
    method MergeObjectBelow(with: Config, key: string)
      requires Valid() && with.Valid() && this !in with.Repr && with !in Repr
      requires key in with.props && key in props && AlignedThere(with, key)
      requires props[key].Nested? && with.props[key].Nested? && Fits(key, with.props[key].config)
      modifies this, BelowKey(key)
      ensures Valid() && with.Valid() && OthersRemain(with, key)
      ensures Repr == old(Repr) + old(ReprOf(with.props[key])) && props == old(props)
      ensures View() == SetChild(old(View()), key,
                MergedNode(old(View()).children[key], old(with.View()).children[key]))
      ensures with.View() == old(with.View()) && with.props == old(with.props) && with.Repr == old(with.Repr)
      ensures AlignedThere(with, key)
      ensures forall k :: k != key ==> BelowKey(k) == old(BelowKey(k))
      decreases with.Repr, 0, 0, 0
    {
      hide Valid, View, NodeAt, Aligned, SetChild, MergedNode, Fits;
      ThisIsAbove();
      with.ThisIsAbove();
      with.ChildIsBelow(key);
      OutsideIsNotBelow(with);
      with.OutsideIsNotBelow(this);
      SiblingsAreApart(key);
      with.SiblingsAreApart(key);
      ShareAndMerge(key, with.props[key].config);
      Remains(with);
    }

    /** Merges an object into the object under a key. */
    method MergeChild(key: string, c: Config)
      requires Valid() && key in props && props[key].Nested?
      requires c.Valid() && props[key].config.Aligned(c) && Fits(key, c) && c.Repr <= Repr
      modifies props[key].config.Repr
      ensures Valid() && Repr == old(Repr) && props == old(props)
      ensures ReprOf(props[key]) <= old(ReprOf(props[key])) + c.Repr
      ensures View() == SetChild(old(View()), key, MergedNode(old(View()).children[key], old(c.View())))
      ensures c.Valid() && props[key].config.Aligned(c) && c.Repr == old(c.Repr) && c.View() == old(c.View())
      decreases c.Repr, 0, 4
    {
      hide View, Aligned, MergedNode;
      ghost var was := View();
      ghost var child := MergedNode(was.children[key], c.View());
      props[key].config.MergeObject(c);
      ViewIs(SetChild(was, key, child));
    }

    /** The same, for an object that is not yet among those reached from here. */
    method ShareAndMerge(key: string, c: Config)
      requires Valid() && key in props && props[key].Nested?
      requires c.Valid() && props[key].config.Aligned(c) && Fits(key, c)
      modifies this, props[key].config.Repr
      ensures Valid() && Repr == old(Repr) + c.Repr && props == old(props)
      ensures ReprOf(props[key]) <= old(ReprOf(props[key])) + c.Repr
      ensures View() == SetChild(old(View()), key, MergedNode(old(View()).children[key], old(c.View())))
      ensures c.Valid() && props[key].config.Aligned(c) && c.Repr == old(c.Repr) && c.View() == old(c.View())
      decreases c.Repr, 0, 5
    {
      hide Valid, View, NodeAt, Aligned, SetChild, MergedNode;
      ThisIsAbove();
      c.ThisIsAbove();
      Reach(c.Repr);
      MergeChild(key, c);
    }

    /** Counts more objects among those reached from here. */
    ghost method Reach(objects: set<object>)
      requires Valid()
      modifies this
      ensures Valid() && Repr == old(Repr) + objects && props == old(props) && View() == old(View())
    {
      ghost var was := View();
      Repr := Repr + objects;
      ViewIs(was);
    }

    /** One property of the other tree. */
    method MergeProperty(with: Config, key: string)
      requires Valid() && with.Valid() && Aligned(with) && key in with.props
      modifies this, BelowKey(key)
      ensures MergedAt(with, key, old(Now(with)))
      ensures forall k :: k != key ==> BelowKey(k) == old(BelowKey(k))
      decreases with.Repr, 0, 1
    {
      hide *;
      if key in props && props[key].Nested? {
        match with.props[key] {
          case Plain(d) =>
            if d.Array? {
              MergeArrayProperty(with, key);
            } else {
              StoreProperty(with, key);
            }
          case Nested(_) =>
            MergeObjectProperty(with, key);
        }
      } else {
        StoreProperty(with, key);
      }
    }

    /** Where a merge stands: the pending properties are as they were. */
    ghost predicate Merging(with: Config, start: Start, pending: set<string>)
      reads this, Repr, with, with.Repr
    {
      && Valid() && with.Valid() && Aligned(with) && this in start.repr && Repr <= start.repr + start.withRepr
      && with.View() == start.tree && with.props == start.others && with.Repr == start.withRepr
      && pending <= start.others.Keys && Progress(start, pending, View(), props)
      && (forall k :: k in pending ==> BelowKey(k) <= start.repr)
    }

    /** Merges one pending property. */
    method MergeNext(with: Config, key: string, ghost start: Start, ghost pending: set<string>)
      requires Merging(with, start, pending) && key in pending
      modifies this, BelowKey(key)
      ensures Merging(with, start, pending - {key})
      decreases with.Repr, 0, 2
    {
      hide Valid, View, NodeAt, BelowKey, Aligned, Progress, SetChild, MergedNodeUnder, SameButAt;
      ghost var view, before := View(), props;
      MergeProperty(with, key);
      OneMore(start, pending, view, before, props, key);
    }

    /**
     * Merges another tree of objects into this one, in place.  The other tree is left as it is,
     * and objects found only there are shared from then on; so the two may share objects already.
     */
    method MergeObject(with: Config)
      requires Valid() && with.Valid() && Aligned(with)
      modifies Repr
      ensures Valid() && Repr <= old(Repr) + with.Repr
      ensures with.Valid() && Aligned(with) && with.Repr == old(with.Repr)
      ensures with.View() == old(with.View()) && with.props == old(with.props)
      ensures View() == MergedNode(old(View()), with.View())
      ensures props == Taken(old(props), with.props)
      decreases with.Repr, 0, 3
    {
      ChildrenAreApart();
      ghost var start := Now(with);
      NothingDone(start);
      hide Valid, View, NodeAt, BelowKey, Aligned, Progress, MergedNode;
      var keys := with.props.Keys;
      while keys != {}
        invariant Merging(with, start, keys)
        decreases |keys|
      {
        var key :| key in keys;
        MergeNext(with, key, start, keys);
        keys := keys - {key};
      }
      AllDone(start, View(), props);
    }

    /** Merging the same object a second time changes nothing. */
    method MergeObjectTwice(with: Config)
      requires Valid() && with.Valid() && Aligned(with)
      modifies Repr, with.Repr
      ensures Valid() && with.Valid() && Aligned(with)
      ensures with.View() == old(with.View()) && with.props == old(with.props)
      ensures View() == MergedNode(old(View()), with.View())
      ensures props == Taken(old(props), with.props)
    {
      hide *;
      MergeObject(with);
      MergeAgain(old(View()), with.View());
      TakeAgain(old(props), with.props);
      MergeObject(with);
    }

    /** What validity says of the objects directly below. */
    lemma ChildrenAreApart()
      requires Valid()
      ensures this in Repr
      ensures forall k :: k in props ==> ReprOf(props[k]) <= Repr && this !in ReprOf(props[k])
      ensures forall k :: k in props && props[k].Nested? ==> props[k].config in Repr && props[k].config.Valid()
      ensures forall k :: k in props && props[k].Nested? ==> props[k].config in props[k].config.Repr
      ensures forall k :: k in props ==> NodeOf(props[k]) == NodeAt(k)
      ensures forall k, l :: k in props && l in props && k != l ==> ReprOf(props[k]) !! ReprOf(props[l])
    {
    }

    /** The nested array of this tree. */
    method ToArray() returns (result: Data)
      requires Valid()
      ensures result == Flattened(View())
      decreases Repr
    {
      var items: map<string, Data> := map[];
      var keys := props.Keys;
      while keys != {}
        invariant keys <= props.Keys && items.Keys == props.Keys - keys
        invariant forall k :: k in items ==> items[k] == Flattened(NodeAt(k))
        decreases |keys|
      {
        var key :| key in keys;
        var item;
        match props[key] {
          case Plain(d) => item := d;
          case Nested(c) => item := c.ToArray();
        }
        items := items[key := item];
        keys := keys - {key};
      }
      result := Array(items);
    }
  }

  /** What a merge leaves under a key: the object it merged into, or else the value it stored. */
  function Settled(mine: map<string, Setting>, key: string, value: Setting): Setting {
    if key in mine && mine[key].Nested? && (value.Nested? || value.data.Array?) then mine[key] else value
  }

  /** The properties are the same except under one key, which has been merged. */
  predicate SameButAt(before: map<string, Setting>, after: map<string, Setting>, key: string, value: Setting) {
    after == before[key := Settled(before, key, value)]
  }

  /** All properties but the pending ones hold what a merge leaves. */
  ghost predicate TakenOver(mine: map<string, Setting>, others: map<string, Setting>, pending: set<string>,
                            now: map<string, Setting>) {
    && (forall k :: k in now <==> k in mine || (k in others && k !in pending))
    && (forall k :: k in mine && (k !in others || k in pending) ==> now[k] == mine[k])
    && (forall k :: k in others && k !in pending ==> now[k] == Settled(mine, k, others[k]))
  }

  /** The properties after a merge: objects found on one side only, or on both, are the same ones as before. */
  function Taken(mine: map<string, Setting>, others: map<string, Setting>): map<string, Setting> {
    map k | k in mine.Keys + others.Keys :: if k in others then Settled(mine, k, others[k]) else mine[k]
  }

  ghost function ReprOf(value: Setting): set<object>
    reads if value.Nested? then {value.config} else {}
  {
    if value.Nested? then value.config.Repr else {}
  }

  ghost function NodeOf(value: Setting): Node
    requires value.Nested? ==> value.config.Valid()
    reads if value.Nested? then {value.config} + value.config.Repr else {}
  {
    match value
    case Plain(d) => Leaf(d)
    case Nested(c) => c.View()
  }

  /** What a merged property makes of the node under its key. */
  function MergedNodeUnder(n: Node, key: string, u: Node): Node
    requires n.Branch?
  {
    if key in n.children then MergedNode(n.children[key], u) else u
  }

  lemma SubsetOfUnion(s: set<object>, t: set<object>, u: set<object>)
    requires u <= t
    ensures s + u <= s + t
  {
  }

  function SetChild(n: Node, key: string, child: Node): Node
    requires n.Branch?
  {
    Branch(n.children[key := child])
  }

  /** What a merged value makes of the node under its key. */
  function MergedUnder(n: Node, key: string, value: Data): Node
    requires n.Branch?
  {
    if key in n.children then MergedArray(n.children[key], value) else Leaf(value)
  }

  /** All entries but the pending ones have been set over what was there. */
  ghost predicate PartlySet(was: Node, given: Data, pending: set<string>, n: Node)
    requires was.Branch? && given.Array?
  {
    && n.Branch?
    && (forall k :: k in n.children <==> k in was.children || (k in given.items && k !in pending))
    && (forall k :: k in was.children && (k !in given.items || k in pending) ==> n.children[k] == was.children[k])
    && (forall k :: k in given.items && k !in pending ==> n.children[k] == Built(given.items[k]))
  }

  lemma NothingSet(was: Node, given: Data)
    requires was.Branch? && given.Array?
    ensures PartlySet(was, given, given.items.Keys, was)
  {
  }

  lemma OneMoreSet(was: Node, given: Data, pending: set<string>, n: Node, key: string)
    requires was.Branch? && given.Array? && PartlySet(was, given, pending, n)
    requires key in pending && key in given.items
    ensures n.Branch?
    ensures PartlySet(was, given, pending - {key}, SetChild(n, key, Built(given.items[key])))
  {
    hide Built;
  }

  lemma AllSet(was: Node, given: Data, n: Node)
    requires was.Branch? && given.Array? && PartlySet(was, given, {}, n)
    ensures n == Branch(was.children + Built(given).children)
  {
  }

  /** All entries but the pending ones have been merged into what was there. */
  ghost predicate PartlyMerged(was: Node, with: Data, pending: set<string>, n: Node)
    requires was.Branch? && with.Array?
  {
    && n.Branch?
    && (forall k :: k in n.children <==> k in was.children || (k in with.items && k !in pending))
    && (forall k :: k in was.children && (k !in with.items || k in pending) ==> n.children[k] == was.children[k])
    && (forall k :: k in with.items && k !in pending ==> n.children[k] == MergedUnder(was, k, with.items[k]))
  }

  lemma NothingMerged(was: Node, with: Data)
    requires was.Branch? && with.Array?
    ensures PartlyMerged(was, with, with.items.Keys, was)
  {
  }

  lemma OneMoreMergedIn(was: Node, with: Data, pending: set<string>, n: Node, key: string)
    requires was.Branch? && with.Array? && PartlyMerged(was, with, pending, n)
    requires key in pending && key in with.items
    ensures n.Branch?
    ensures PartlyMerged(was, with, pending - {key}, SetChild(n, key, MergedUnder(n, key, with.items[key])))
  {
    hide MergedArray;
    assert MergedUnder(n, key, with.items[key]) == MergedUnder(was, key, with.items[key]);
    hide MergedUnder;
  }

  /** The same for the properties of a merged object. */
  ghost predicate PartlyMergedNode(was: Node, tree: Node, pending: set<string>, n: Node)
    requires was.Branch? && tree.Branch?
  {
    && n.Branch?
    && (forall k :: k in n.children <==> k in was.children || (k in tree.children && k !in pending))
    && (forall k :: k in was.children && (k !in tree.children || k in pending) ==> n.children[k] == was.children[k])
    && (forall k :: k in tree.children && k !in pending ==> n.children[k] == MergedNodeUnder(was, k, tree.children[k]))
  }

  /** The two trees, and the objects they are made of, when a merge begins. */
  datatype Start = Start(was: Node, tree: Node, mine: map<string, Setting>, others: map<string, Setting>,
                         repr: set<object>, withRepr: set<object>)

  /** What has been done to the view, and to the properties, of the object merged into. */
  ghost predicate Progress(start: Start, pending: set<string>, view: Node, now: map<string, Setting>) {
    && start.was.Branch? && start.tree.Branch? && start.others.Keys == start.tree.children.Keys
    && PartlyMergedNode(start.was, start.tree, pending, view)
    && TakenOver(start.mine, start.others, pending, now)
  }

  lemma NothingDone(start: Start)
    requires start.was.Branch? && start.tree.Branch? && start.others.Keys == start.tree.children.Keys
    ensures Progress(start, start.others.Keys, start.was, start.mine)
  {
  }

  lemma OneMore(start: Start, pending: set<string>, view: Node,
                before: map<string, Setting>, after: map<string, Setting>, key: string)
    requires Progress(start, pending, view, before)
    requires key in pending && key in start.others && SameButAt(before, after, key, start.others[key])
    ensures view.Branch?
    ensures Progress(start, pending - {key},
                     SetChild(view, key, MergedNodeUnder(view, key, start.tree.children[key])), after)
  {
    hide PartlyMergedNode, TakenOver, SetChild, MergedNodeUnder, SameButAt;
    OneMoreMerged(start.was, start.tree, pending, view, key);
    OneMoreTakenOver(start.mine, start.others, pending, before, after, key);
  }

  lemma OneMoreMerged(was: Node, tree: Node, pending: set<string>, view: Node, key: string)
    requires was.Branch? && tree.Branch? && PartlyMergedNode(was, tree, pending, view)
    requires key in pending && key in tree.children
    ensures view.Branch?
    ensures PartlyMergedNode(was, tree, pending - {key},
                             SetChild(view, key, MergedNodeUnder(view, key, tree.children[key])))
  {
    hide MergedNode;
    assert MergedNodeUnder(view, key, tree.children[key]) == MergedNodeUnder(was, key, tree.children[key]);
    hide MergedNodeUnder;
  }

  lemma OneMoreTakenOver(mine: map<string, Setting>, others: map<string, Setting>, pending: set<string>,
                         before: map<string, Setting>, after: map<string, Setting>, key: string)
    requires TakenOver(mine, others, pending, before)
    requires key in pending && key in others && SameButAt(before, after, key, others[key])
    ensures TakenOver(mine, others, pending - {key}, after)
  {
  }

  lemma AllDone(start: Start, view: Node, now: map<string, Setting>)
    requires Progress(start, {}, view, now)
    ensures view == MergedNode(start.was, start.tree) && now == Taken(start.mine, start.others)
  {
    assert view.children.Keys == start.was.children.Keys + start.tree.children.Keys;
    assert now.Keys == start.mine.Keys + start.others.Keys;
  }

  lemma AllMerged(was: Node, with: Data, n: Node)
    requires was.Branch? && with.Array? && PartlyMerged(was, with, {}, n)
    ensures n == MergedArray(was, with)
  {
    assert n.children.Keys == was.children.Keys + with.items.Keys;
  }

  // -------------------------------------------------------------------------
  // Properties
  // -------------------------------------------------------------------------

  /** Converting what was built from an array gives the array. */
  lemma {:induction false} FlattenedBuilt(d: Data)
    ensures Flattened(Built(d)) == d
  {
    if d.Array? {
      forall k | k in d.items
        ensures Flattened(Built(d.items[k])) == d.items[k]
      {
        FlattenedBuilt(d.items[k]);
      }
    }
  }

  /** Following the keys of a path leads to this value. */
  predicate LeadsTo(d: Data, path: seq<string>, v: Data) {
    if path == [] then d == v
    else d.Array? && path[0] in d.items && LeadsTo(d.items[path[0]], path[1..], v)
  }

  /** Following the path, a key is missing before anything else than an array is met. */
  predicate LeavesOpen(d: Data, path: seq<string>) {
    path != [] && d.Array? && (path[0] in d.items ==> LeavesOpen(d.items[path[0]], path[1..]))
  }

  /** The recursive merge, path by path: it holds what the second array holds, and what the first
      one holds where the second one leaves the path open. */
  lemma {:induction false} MergedByPaths(a: Data, b: Data, path: seq<string>, text: string)
    ensures LeadsTo(DeepMerge(a, b), path, Scalar(text)) <==>
            LeadsTo(b, path, Scalar(text)) || (LeadsTo(a, path, Scalar(text)) && LeavesOpen(b, path))
    decreases |path|
  {
    if path != [] && a.Array? && b.Array? && path[0] in a.items && path[0] in b.items {
      MergedByPaths(a.items[path[0]], b.items[path[0]], path[1..], text);
    }
  }

  /** The second array has every key of the first, and so on inside arrays that they share. */
  predicate Covers(d: Data, c: Data)
    requires d.Array? && c.Array?
  {
    forall k :: k in d.items ==>
      k in c.items && (d.items[k].Array? && c.items[k].Array? ==> Covers(d.items[k], c.items[k]))
  }

  /** Nothing of an array is left in a merge exactly when the other one covers it. */
  lemma {:induction false} AbsorbedIff(d: Data, c: Data)
    ensures DeepMerge(d, c) == c <==> (d.Array? && c.Array? ==> Covers(d, c))
  {
    if d.Array? && c.Array? {
      var m := DeepMerge(d, c);
      forall k | k in d.items && k in c.items
        ensures DeepMerge(d.items[k], c.items[k]) == c.items[k]
           <==> (d.items[k].Array? && c.items[k].Array? ==> Covers(d.items[k], c.items[k]))
      {
        AbsorbedIff(d.items[k], c.items[k]);
      }
      if Covers(d, c) {
        assert m.items == c.items;
      }
      if m == c {
        forall k | k in d.items
          ensures k in c.items && m.items[k] == c.items[k]
        {
          assert k in m.items;
        }
      }
    }
  }

  /** Every stored array that meets another array in this merge is covered by it. */
  predicate LosesNothing(n: Node, c: Data) {
    match n
    case Leaf(d) => d.Array? && c.Array? ==> Covers(d, c)
    case Branch(children) =>
      c.Array? ==> forall k :: k in children && k in c.items ==> LosesNothing(children[k], c.items[k])
  }

  /**
   * Merging an array in place gives the right-biased recursive merge, once converted, exactly
   * when no array stored by an earlier merge has to be merged into.
   */
  lemma {:induction false} MergeIsDeepIff(n: Node, c: Data)
    ensures Flattened(MergedArray(n, c)) == DeepMerge(Flattened(n), c) <==> LosesNothing(n, c)
  {
    match n {
      case Leaf(d) =>
        AbsorbedIff(d, c);
      case Branch(children) =>
        if c.Array? {
          forall k | k in children && k in c.items
            ensures Flattened(MergedArray(children[k], c.items[k])) == DeepMerge(Flattened(children[k]), c.items[k])
               <==> LosesNothing(children[k], c.items[k])
          {
            MergeIsDeepIff(children[k], c.items[k]);
          }
          SameEntriesIff(n, c);
        }
    }
  }

  /** The two results have the same keys, and the same values but perhaps under shared keys. */
  lemma SameEntriesIff(n: Node, c: Data)
    requires n.Branch? && c.Array?
    ensures Flattened(MergedArray(n, c)) == DeepMerge(Flattened(n), c)
       <==> forall k :: k in n.children && k in c.items ==>
              Flattened(MergedArray(n.children[k], c.items[k])) == DeepMerge(Flattened(n.children[k]), c.items[k])
  {
    var left, right := Flattened(MergedArray(n, c)), DeepMerge(Flattened(n), c);
    assert left.items.Keys == right.items.Keys;
    assert forall k :: k in n.children && k in c.items ==>
        left.items[k] == Flattened(MergedArray(n.children[k], c.items[k]))
        && right.items[k] == DeepMerge(Flattened(n.children[k]), c.items[k]);
    forall k | k in left.items && !(k in n.children && k in c.items)
      ensures left.items[k] == right.items[k]
    {
      if k in n.children {
        assert left.items[k] == Flattened(n.children[k]) == Flattened(n).items[k];
      } else {
        assert left.items[k] == Flattened(Leaf(c.items[k])) == c.items[k];
      }
    }
    if left == right {
      assert forall k :: k in left.items ==> left.items[k] == right.items[k];
    }
    assert (forall k :: k in left.items ==> left.items[k] == right.items[k]) ==> left.items == right.items;
  }

  /** A tree as construction leaves it holds no stored array. */
  lemma {:induction false} BuiltLosesNothing(a: Data, c: Data)
    ensures LosesNothing(Built(a), c)
  {
    if a.Array? && c.Array? {
      forall k | k in a.items && k in c.items
        ensures LosesNothing(Built(a.items[k]), c.items[k])
      {
        BuiltLosesNothing(a.items[k], c.items[k]);
      }
    }
  }

  /** Merging an array into a newly built tree is the right-biased recursive merge of the two arrays. */
  lemma MergeIsDeep(a: Data, b: Data)
    ensures Flattened(MergedArray(Built(a), b)) == DeepMerge(a, b)
  {
    FlattenedBuilt(a);
    BuiltLosesNothing(a, b);
    MergeIsDeepIff(Built(a), b);
  }

  /** Merging an array into the tree built from it changes nothing at all. */
  lemma {:induction false} MergeSelf(a: Data)
    ensures MergedArray(Built(a), a) == Built(a)
  {
    if a.Array? {
      forall k | k in a.items
        ensures MergedArray(Built(a.items[k]), a.items[k]) == Built(a.items[k])
      {
        MergeSelf(a.items[k]);
      }
    }
  }

  /** Merging two built trees gives the tree that is built from the merged arrays. */
  lemma {:induction false} MergeOfBuilt(a: Data, b: Data)
    ensures MergedNode(Built(a), Built(b)) == Built(DeepMerge(a, b))
  {
    if a.Array? && b.Array? {
      var left, right := MergedNode(Built(a), Built(b)), Built(DeepMerge(a, b));
      assert left.children.Keys == right.children.Keys;
      forall k | k in left.children
        ensures left.children[k] == right.children[k]
      {
        if k in a.items && k in b.items {
          MergeOfBuilt(a.items[k], b.items[k]);
        }
      }
    } else if a.Array? {
      assert Built(b) == Leaf(b);
    }
  }

  /** Merging an array a second time changes nothing. */
  lemma {:induction false} MergeArrayAgain(n: Node, d: Data)
    ensures MergedArray(MergedArray(n, d), d) == MergedArray(n, d)
  {
    if n.Branch? && d.Array? {
      var once := MergedArray(n, d);
      forall k | k in n.children && k in d.items
        ensures MergedArray(once.children[k], d.items[k]) == once.children[k]
      {
        MergeArrayAgain(n.children[k], d.items[k]);
      }
      assert MergedArray(once, d).children.Keys == once.children.Keys;
      SameChildren(MergedArray(once, d), once);
    }
  }

  /** Merging an object into itself changes nothing. */
  lemma {:induction false} MergeOwn(n: Node)
    ensures MergedNode(n, n) == n
  {
    if n.Branch? {
      forall k | k in n.children
        ensures MergedNode(n.children[k], n.children[k]) == n.children[k]
      {
        MergeOwn(n.children[k]);
      }
      assert MergedNode(n, n).children.Keys == n.children.Keys;
      SameChildren(MergedNode(n, n), n);
    }
  }

  /** Merging an object a second time changes nothing. */
  lemma {:induction false} MergeAgain(n: Node, u: Node)
    ensures MergedNode(MergedNode(n, u), u) == MergedNode(n, u)
  {
    if n.Branch? && u.Branch? {
      var once := MergedNode(n, u);
      forall k | k in u.children
        ensures MergedNode(once.children[k], u.children[k]) == once.children[k]
      {
        if k in n.children {
          MergeAgain(n.children[k], u.children[k]);
        } else {
          MergeOwn(u.children[k]);
        }
      }
      assert MergedNode(once, u).children.Keys == once.children.Keys;
      SameChildren(MergedNode(once, u), once);
    } else if n.Branch? {
      MergeArrayAgain(n, u.data);
    } else {
      MergeOwn(u);
    }
  }

  lemma SameChildren(n: Node, m: Node)
    requires n.Branch? && m.Branch? && n.children.Keys == m.children.Keys
    requires forall k :: k in n.children ==> n.children[k] == m.children[k]
    ensures n == m
  {
    assert n.children == m.children;
  }

  /** The properties of the second merge are those of the first. */
  lemma TakeAgain(mine: map<string, Setting>, others: map<string, Setting>)
    ensures Taken(Taken(mine, others), others) == Taken(mine, others)
  {
  }

  /** An array merged in under a new key is replaced, not merged into, when that key is merged again. */
  lemma SecondMergeReplaces(n: Node, key: string, first: Data, second: Data)
    requires n.Branch? && key !in n.children
    ensures var merged := MergedArray(MergedArray(n, Array(map[key := first])), Array(map[key := second]));
            merged.Branch? && key in merged.children && merged.children[key] == Leaf(second)
  {
  }

  /** So a key of the first array is missing afterwards, which the recursive merge would keep. */
  lemma SecondMergeLoses()
    ensures var first, second := Array(map["x" := Scalar("1")]), Array(map["y" := Scalar("2")]);
            var once := MergedArray(Branch(map[]), Array(map["k" := first]));
            Flattened(MergedArray(once, Array(map["k" := second])))
            != DeepMerge(DeepMerge(Array(map[]), Array(map["k" := first])), Array(map["k" := second]))
  {
    var first, second := Array(map["x" := Scalar("1")]), Array(map["y" := Scalar("2")]);
    var once := MergedArray(Branch(map[]), Array(map["k" := first]));
    SecondMergeReplaces(Branch(map[]), "k", first, second);
    var deepOnce := DeepMerge(Array(map[]), Array(map["k" := first]));
    assert deepOnce.items["k"] == first;
    var deep := DeepMerge(deepOnce, Array(map["k" := second]));
    assert deep.items["k"] == DeepMerge(first, second);
    assert "x" in DeepMerge(first, second).items;
    assert Flattened(MergedArray(once, Array(map["k" := second]))).items["k"] == second;
  }
}
