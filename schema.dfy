/** The AIM2 ontology schema built by init_ontology: the class hierarchy
    under owlready2's Thing and the table of properties with their kind,
    domain, range, functional flag, super-property and inverse pairing.
    The source declares these by defining Python classes inside a
    `with onto:` block; here they are constant tables and the facts the
    source and its tests rely on are proved about those tables. */
module Schema {
  import opened Wrappers

  /** IRI of the AIM2 base ontology. */
  const BaseIri: string := "http://purl.obolibrary.org/obo/aim2.owl"

  // ---------------------------------------------------------------------
  // Classes
  // ---------------------------------------------------------------------

  /** Thing is owlready2's root class; the other four are declared by
      init_ontology. */
  datatype OntClass =
    | Thing
    | Annotation
    | StructuralAnnotation
    | SourceAnnotation
    | FunctionalAnnotation

  /** The one superclass each class is declared with (single inheritance);
      Thing has none. */
  function DeclaredSuperclass(c: OntClass): Option<OntClass>
  {
    match c
    case Thing => None
    case Annotation => Some(Thing)
    case StructuralAnnotation => Some(Annotation)
    case SourceAnnotation => Some(Annotation)
    case FunctionalAnnotation => Some(Annotation)
  }

  /** How many declared superclass steps separate a class from Thing, as
      the schema is meant to be layered: Thing, then Annotation, then its
      three kinds. Used as the rank that makes the hierarchy well-founded. */
  function Level(c: OntClass): nat
  {
    match c
    case Thing => 0
    case Annotation => 1
    case _ => 2
  }

  /** Every declared superclass sits exactly one level above its subclass,
      so following superclasses can never come back to where it started. */
  lemma SuperclassOneLevelUp(c: OntClass)
    ensures DeclaredSuperclass(c).None? <==> c == Thing
    ensures DeclaredSuperclass(c).Some? ==> Level(DeclaredSuperclass(c).value) + 1 == Level(c)
  {
  }

  /** The superclass chain of `c`: `c` itself, its superclass, that one's
      superclass, and so on. It ends at Thing and never repeats a class. */
  function Ancestors(c: OntClass): (chain: seq<OntClass>)
    decreases Level(c)
    ensures |chain| == Level(c) + 1
    ensures chain[0] == c && chain[|chain| - 1] == Thing
    ensures forall i {:trigger DeclaredSuperclass(chain[i])} ::
      0 <= i < |chain| - 1 ==> DeclaredSuperclass(chain[i]) == Some(chain[i + 1])
    ensures forall i :: 0 <= i < |chain| ==> Level(chain[i]) == Level(c) - i
    ensures forall i, j :: 0 <= i < j < |chain| ==> chain[i] != chain[j]
  {
    match DeclaredSuperclass(c)
    case None => [c]
    case Some(s) => SuperclassOneLevelUp(c); [c] + Ancestors(s)
  }

  /** issubclass(c, d) for the declared classes: d is on c's superclass chain. */
  predicate IsSubclassOf(c: OntClass, d: OntClass)
  {
    d in Ancestors(c)
  }

  /** The superclasses tests/ontology/test_schema.py checks. */
  lemma DeclaredSuperclasses()
    ensures DeclaredSuperclass(Annotation) == Some(Thing)
    ensures DeclaredSuperclass(StructuralAnnotation) == Some(Annotation)
    ensures DeclaredSuperclass(SourceAnnotation) == Some(Annotation)
    ensures DeclaredSuperclass(FunctionalAnnotation) == Some(Annotation)
  {
  }

  /** The class hierarchy is acyclic and rooted: every chain ends at Thing
      and no class is its own proper ancestor. */
  lemma {:induction false} HierarchyRootedAndAcyclic(c: OntClass)
    ensures IsSubclassOf(c, Thing)
    ensures forall i :: 0 < i < |Ancestors(c)| ==> Ancestors(c)[i] != c
  {
    var chain := Ancestors(c);
    assert chain[|chain| - 1] == Thing;
  }

  /** Ancestors of an ancestor are ancestors: the chain of a class on c's
      chain is a suffix of c's chain. */
  lemma {:induction false} AncestorsSuffix(c: OntClass, i: nat)
    requires i < |Ancestors(c)|
    ensures Ancestors(Ancestors(c)[i]) == Ancestors(c)[i..]
    decreases Level(c)
  {
    if i > 0 {
      var s := DeclaredSuperclass(c).value;
      assert Ancestors(c) == [c] + Ancestors(s);
      AncestorsSuffix(s, i - 1);
      assert Ancestors(c)[i..] == Ancestors(s)[i - 1..];
    }
  }

  /** Position i on c's chain is i levels above c. */
  lemma {:induction false} AncestorLevel(c: OntClass, d: OntClass)
    requires IsSubclassOf(c, d)
    ensures Level(d) <= Level(c)
    ensures Level(d) == Level(c) ==> d == c
    ensures Ancestors(d) == Ancestors(c)[Level(c) - Level(d)..]
  {
    var chain := Ancestors(c);
    var i :| 0 <= i < |chain| && chain[i] == d;
    AncestorsSuffix(c, i);
  }

  /** A class is a subclass of d when it is d or its superclass is one. */
  lemma SubclassStep(c: OntClass, d: OntClass)
    ensures IsSubclassOf(c, d) <==>
      c == d || (DeclaredSuperclass(c).Some? && IsSubclassOf(DeclaredSuperclass(c).value, d))
  {
    if c != Thing {
      assert Ancestors(c) == [c] + Ancestors(DeclaredSuperclass(c).value);
    }
  }

  /** The subclass relation is transitive. */
  lemma {:induction false} SubclassTransitive(c: OntClass, d: OntClass, e: OntClass)
    requires IsSubclassOf(c, d) && IsSubclassOf(d, e)
    ensures IsSubclassOf(c, e)
    decreases Level(c)
  {
    SubclassStep(c, d);
    if c != d {
      SubclassTransitive(DeclaredSuperclass(c).value, d, e);
      SubclassStep(c, e);
    }
  }

  /** The subclass relation is reflexive and antisymmetric, so with
      transitivity it is a partial order; antisymmetry is acyclicity. */
  lemma {:induction false} SubclassAntisymmetric(c: OntClass, d: OntClass)
    ensures IsSubclassOf(c, c)
    ensures IsSubclassOf(c, d) && IsSubclassOf(d, c) ==> c == d
  {
    assert Ancestors(c)[0] == c;
    if IsSubclassOf(c, d) && IsSubclassOf(d, c) {
      AncestorLevel(c, d);
      AncestorLevel(d, c);
    }
  }

  // ---------------------------------------------------------------------
  // Properties
  // ---------------------------------------------------------------------

  /** The three owlready2 property kinds, compared directly instead of by
      inspecting a runtime type name. */
  datatype PropertyKind = ObjectProperty | DataProperty | AnnotationProperty

  datatype Property =
    | HasSource
    | HasConfidence
    | IsA
    | PartOf
    | HasPart
    | HasFunctionalAnnotation
    | HasStructuralAnnotation
    | HasSourceAnnotation
    | MadeVia
    | AccumulatesIn
    | Affects
    | Upregulates
    | Downregulates
    | Inhibits
    | Activates
    | ParticipatesIn
    | HasParticipant
    | LocatedIn
    | HasLocation

  /** One row of the property table. An empty domain or range means the
      source leaves it undeclared. */
  datatype PropertyDecl = PropertyDecl(
    kind: PropertyKind,
    domain: seq<OntClass>,
    range: seq<OntClass>,
    functional: bool,
    superProperty: Option<Property>)

  /** A plain object property between any two things. */
  function ThingToThing(superProperty: Option<Property>): PropertyDecl
  {
    PropertyDecl(ObjectProperty, [Thing], [Thing], false, superProperty)
  }

  /** The property table. */
  function Decl(p: Property): PropertyDecl
  {
    match p
    case HasSource => PropertyDecl(AnnotationProperty, [], [], false, None)
    case HasConfidence => PropertyDecl(DataProperty, [], [], true, None)
    case IsA => ThingToThing(None)
    case PartOf => ThingToThing(None)
    case HasPart => ThingToThing(None)
    case HasFunctionalAnnotation => PropertyDecl(ObjectProperty, [Thing], [FunctionalAnnotation], false, None)
    case HasStructuralAnnotation => PropertyDecl(ObjectProperty, [Thing], [StructuralAnnotation], false, None)
    case HasSourceAnnotation => PropertyDecl(ObjectProperty, [Thing], [SourceAnnotation], false, None)
    case MadeVia => ThingToThing(None)
    case AccumulatesIn => ThingToThing(None)
    case Affects => ThingToThing(None)
    case Upregulates => ThingToThing(Some(Affects))
    case Downregulates => ThingToThing(Some(Affects))
    case Inhibits => ThingToThing(Some(Affects))
    case Activates => ThingToThing(Some(Affects))
    case ParticipatesIn => ThingToThing(None)
    case HasParticipant => ThingToThing(None)
    case LocatedIn => ThingToThing(None)
    case HasLocation => ThingToThing(None)
  }

  // --- property kinds, domains, ranges, the functional flag --------------

  /** hasSource is the one annotation property, hasConfidence the one data
      property; everything else is an object property. */
  lemma PropertyKinds(p: Property)
    ensures Decl(p).kind == AnnotationProperty <==> p == HasSource
    ensures Decl(p).kind == DataProperty <==> p == HasConfidence
    ensures Decl(p).kind == ObjectProperty <==> p != HasSource && p != HasConfidence
  {
  }

  /** hasConfidence is the only functional property. */
  lemma OnlyConfidenceIsFunctional(p: Property)
    ensures Decl(p).functional <==> p == HasConfidence
  {
  }

  /** The three annotation links point from any Thing to the matching
      Annotation subclass. */
  lemma AnnotationLinkRanges()
    ensures Decl(HasFunctionalAnnotation).domain == [Thing]
    ensures Decl(HasFunctionalAnnotation).range == [FunctionalAnnotation]
    ensures Decl(HasStructuralAnnotation).domain == [Thing]
    ensures Decl(HasStructuralAnnotation).range == [StructuralAnnotation]
    ensures Decl(HasSourceAnnotation).domain == [Thing]
    ensures Decl(HasSourceAnnotation).range == [SourceAnnotation]
  {
  }

  /** Every object property declares exactly one domain class, Thing, and
      exactly one range class. */
  lemma ObjectPropertyShape(p: Property)
    requires Decl(p).kind == ObjectProperty
    ensures Decl(p).domain == [Thing] && |Decl(p).range| == 1
  {
  }

  /** Every object property declares both a domain and a range, its domain
      is Thing and its range class lies in the hierarchy below Thing. */
  lemma {:induction false} ObjectPropertiesTyped(p: Property)
    requires Decl(p).kind == ObjectProperty
    ensures |Decl(p).domain| == 1 && |Decl(p).range| == 1
    ensures Decl(p).domain == [Thing]
    ensures IsSubclassOf(Decl(p).range[0], Thing)
  {
    ObjectPropertyShape(p);
    HierarchyRootedAndAcyclic(Decl(p).range[0]);
  }

  // --- super-properties ------------------------------------------------------

  /** 0 for a top-level property, 1 for a declared sub-property. */
  function PropertyLevel(p: Property): nat
  {
    if Decl(p).superProperty.Some? then 1 else 0
  }

  /** The super-property chain of `p`, ending at a top-level property. */
  function SuperProperties(p: Property): (chain: seq<Property>)
    decreases PropertyLevel(p)
    ensures 1 <= |chain| && chain[0] == p
    ensures Decl(chain[|chain| - 1]).superProperty.None?
    ensures forall i {:trigger Decl(chain[i])} ::
      0 <= i < |chain| - 1 ==> Decl(chain[i]).superProperty == Some(chain[i + 1])
    ensures forall i, j :: 0 <= i < j < |chain| ==> chain[i] != chain[j]
  {
    match Decl(p).superProperty
    case None => [p]
    case Some(q) =>
      assert Decl(q).superProperty.None?;
      [p, q]
  }

  /** P is a sub-property of Q (issubclass on property classes). */
  predicate IsSubPropertyOf(p: Property, q: Property)
  {
    q in SuperProperties(p)
  }

  /** The four regulation properties, and only they, sit under affects,
      and affects is top-level. */
  lemma SubPropertiesOfAffects(p: Property)
    ensures p != Affects ==>
      (IsSubPropertyOf(p, Affects) <==> p in {Upregulates, Downregulates, Inhibits, Activates})
    ensures SuperProperties(Affects) == [Affects]
  {
  }

  /** A sub-property's domain and range equal its parent's, so every
      assertion of the sub-property is a well-typed assertion of the parent. */
  lemma {:induction false} SubPropertyCompatible(p: Property)
    ensures forall i :: 0 <= i < |SuperProperties(p)| ==>
      Decl(SuperProperties(p)[i]).domain == Decl(p).domain &&
      Decl(SuperProperties(p)[i]).range == Decl(p).range
  {
    var chain := SuperProperties(p);
    if |chain| == 2 {
      assert Decl(chain[1]) == ThingToThing(None);
      assert Decl(p) == ThingToThing(Some(Affects));
    }
  }

  // --- inverse pairs ---------------------------------------------------------

  /** One declared inverse edge: `declaring` names `inverse` as its
      inverse_property; owlready2 then links both ways. */
  datatype InversePair = InversePair(declaring: Property, inverse: Property)

  const InversePairs: seq<InversePair> := [
    InversePair(HasPart, PartOf),
    InversePair(HasParticipant, ParticipatesIn),
    InversePair(HasLocation, LocatedIn)]

  /** `p` occurs in pair `e` and `q` is its partner there. */
  predicate PairLinks(e: InversePair, p: Property, q: Property)
  {
    (e.declaring == p && e.inverse == q) || (e.inverse == p && e.declaring == q)
  }

  /** Each property occurs in at most one pair and no pair links a property
      to itself. */
  predicate PairsWellFormed(pairs: seq<InversePair>)
  {
    && (forall i :: 0 <= i < |pairs| ==> pairs[i].declaring != pairs[i].inverse)
    && (forall i, j, p, q :: 0 <= i < j < |pairs| && PairLinks(pairs[i], p, q) ==>
         pairs[j].declaring != p && pairs[j].inverse != p)
  }

  /** The inverse of `p` according to the pairs: its partner in the first
      pair that mentions it. */
  function InverseIn(pairs: seq<InversePair>, p: Property): (r: Option<Property>)
    ensures r.Some? ==> exists i :: 0 <= i < |pairs| && PairLinks(pairs[i], p, r.value)
    ensures r.None? ==> forall i, q :: 0 <= i < |pairs| ==> !PairLinks(pairs[i], p, q)
  {
    if pairs == [] then None
    else if pairs[0].declaring == p then Some(pairs[0].inverse)
    else if pairs[0].inverse == p then Some(pairs[0].declaring)
    else
      var r := InverseIn(pairs[1..], p);
      assert forall i, q :: 0 < i < |pairs| && PairLinks(pairs[i], p, q) ==> PairLinks(pairs[1..][i - 1], p, q);
      r
  }

  /** inverse_property as owlready2 reports it. */
  function Inverse(p: Property): Option<Property>
  {
    InverseIn(InversePairs, p)
  }

  /** In well-formed pairs the partner a property is found with is unique. */
  lemma {:induction false} InverseInUnique(pairs: seq<InversePair>, p: Property, q: Property, k: nat)
    requires PairsWellFormed(pairs)
    requires k < |pairs| && PairLinks(pairs[k], p, q)
    ensures InverseIn(pairs, p) == Some(q)
  {
    if k > 0 {
      assert PairLinks(pairs[0], pairs[0].declaring, pairs[0].inverse);
      assert PairLinks(pairs[0], pairs[0].inverse, pairs[0].declaring);
      assert pairs[0].declaring != p && pairs[0].inverse != p;
      assert PairsWellFormed(pairs[1..]) by {
        forall i, j, p', q' | 0 <= i < j < |pairs[1..]| && PairLinks(pairs[1..][i], p', q')
          ensures pairs[1..][j].declaring != p' && pairs[1..][j].inverse != p'
        {
          assert PairLinks(pairs[i + 1], p', q');
        }
      }
      InverseInUnique(pairs[1..], p, q, k - 1);
    }
  }

  /** Over well-formed pairs the inverse is an involution with no fixed point. */
  lemma {:induction false} InverseInvolutionIn(pairs: seq<InversePair>, p: Property)
    requires PairsWellFormed(pairs)
    ensures InverseIn(pairs, p) != Some(p)
    ensures InverseIn(pairs, p).Some? ==> InverseIn(pairs, InverseIn(pairs, p).value) == Some(p)
  {
    var r := InverseIn(pairs, p);
    if r.Some? {
      var i :| 0 <= i < |pairs| && PairLinks(pairs[i], p, r.value);
      assert PairLinks(pairs[i], r.value, p);
      InverseInUnique(pairs, r.value, p, i);
    }
  }

  /** No property occurs in two of the declared pairs, and none is paired
      with itself. */
  lemma InversePairsWellFormed()
    ensures PairsWellFormed(InversePairs)
  {
  }

  /** The declared pairs are well-formed, so no property is its own inverse
      and applying inverse twice gives the property back. */
  lemma InverseInvolution(p: Property)
    ensures Inverse(p) != Some(p)
    ensures Inverse(p).Some? ==> Inverse(Inverse(p).value) == Some(p)
  {
    InversePairsWellFormed();
    InverseInvolutionIn(InversePairs, p);
  }

  /** The inverse pairs the source declares, read in both directions. */
  lemma DeclaredInverses()
    ensures Inverse(HasPart) == Some(PartOf) && Inverse(PartOf) == Some(HasPart)
    ensures Inverse(HasParticipant) == Some(ParticipatesIn) && Inverse(ParticipatesIn) == Some(HasParticipant)
    ensures Inverse(HasLocation) == Some(LocatedIn) && Inverse(LocatedIn) == Some(HasLocation)
  {
    InversePairsWellFormed();
    InverseInUnique(InversePairs, HasPart, PartOf, 0);
    InverseInUnique(InversePairs, PartOf, HasPart, 0);
    InverseInUnique(InversePairs, HasParticipant, ParticipatesIn, 1);
    InverseInUnique(InversePairs, ParticipatesIn, HasParticipant, 1);
    InverseInUnique(InversePairs, HasLocation, LocatedIn, 2);
    InverseInUnique(InversePairs, LocatedIn, HasLocation, 2);
  }

  /** Only the six properties named in the declared pairs have an inverse. */
  lemma OnlyPairedPropertiesHaveInverses(p: Property)
    ensures Inverse(p).Some? <==> p in {HasPart, PartOf, HasParticipant, ParticipatesIn, HasLocation, LocatedIn}
  {
    if Inverse(p).Some? {
      var i :| 0 <= i < |InversePairs| && PairLinks(InversePairs[i], p, Inverse(p).value);
    } else {
      forall i | 0 <= i < |InversePairs| ensures InversePairs[i].declaring != p && InversePairs[i].inverse != p {
        assert !PairLinks(InversePairs[i], p, InversePairs[i].inverse);
        assert !PairLinks(InversePairs[i], p, InversePairs[i].declaring);
      }
    }
  }
}
