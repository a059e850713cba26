/** aim2/ontology/manager.py: the AIM2Ontology manager, a small state
    machine over the current ontology, its default file path, an
    "initialized" flag and a table of imported ontologies keyed by prefix.

    owlready2 is outside the model: loading an ontology from a file or an
    IRI, saving it, and running the reasoner are parameters of the methods
    that call them, each of which may fail with a message. The ghost log
    `calls` records every such call in order, so that the contracts can
    say when the library is reached and when it is not. */
module Manager {
  import opened Wrappers
  import Schema

  /** An owlready2 ontology, identified by the IRI or file it came from. */
  datatype Ontology = Ontology(iri: string)

  /** The ontology that schema initialisation builds. */
  const BaseOntology: Ontology := Ontology(Schema.BaseIri)

  /** The exceptions the manager raises or lets through from owlready2. */
  datatype ManagerError =
    | ValueError              // no path given and no default path
    | RuntimeError            // used before load
    | LibraryError(message: string) // re-raised from owlready2 or the reasoner

  datatype Outcome = Done | Raised(error: ManagerError)

  /** The calls into owlready2 that the manager makes. */
  datatype ForeignCall =
    | LoadCall(source: string)
    | SaveCall(ontology: Ontology, file: string)
    | ReasonerCall

  /** get_ontology(source).load(): the loaded ontology, or an error message. */
  type Loader = string -> Result<Ontology, string>

  /** onto.save(file=...): None on success, or an error message. */
  type Saver = (Ontology, string) -> Option<string>

  /** `Path(path) if path else default`: an empty string counts as no
      path. A path object is always truthy, so only a missing default
      leaves nothing. */
  function ResolvePath(path: Option<string>, default: Option<string>): (r: Option<string>)
    ensures path.Some? && path.value != "" ==> r == path
    ensures !(path.Some? && path.value != "") ==> r == default
    ensures r.Some? <==> (path.Some? && path.value != "") || default.Some?
  {
    if path.Some? && path.value != "" then path else default
  }

  class OntologyManager {
    var owlPath: Option<string>
    var importedOntologies: map<string, Ontology>
    var initialized: bool
    var onto: Ontology
    ghost var calls: seq<ForeignCall>

    /** The default path is never empty, and until a load has succeeded
        or found no file, nothing has been imported and the ontology is
        still the base one. */
    ghost predicate Valid()
      reads this
    {
      owlPath != Some("") &&
      (!initialized ==> importedOntologies == map[] && onto == BaseOntology)
    }

    /** __init__: a default path is kept only when one was given and is not
        empty; the manager starts uninitialized with no imports. */
    constructor (owlPath: Option<string>)
      ensures Valid()
      ensures this.owlPath == ResolvePath(owlPath, None)
      ensures importedOntologies == map[] && !initialized
      ensures onto == BaseOntology && calls == []
    {
      this.owlPath := ResolvePath(owlPath, None);
      importedOntologies := map[];
      initialized := false;
      onto := BaseOntology;
      calls := [];
    }

    /** load: the explicit path, else the default; with neither it is
        ValueError and nothing changes. A path with no file behind it
        initializes the manager with the ontology it already has. Otherwise
        the file is loaded: success replaces the ontology and initializes;
        failure re-raises and changes nothing but the call log. */
    method Load(path: Option<string>, existing: set<string>, loadOntology: Loader) returns (outcome: Outcome)
      requires Valid()
      modifies this`initialized, this`onto, this`calls
      ensures Valid()
      ensures outcome == Done ==> initialized
      ensures ResolvePath(path, owlPath).None? ==>
        outcome == Raised(ValueError) && initialized == old(initialized) && onto == old(onto) && calls == old(calls)
      ensures ResolvePath(path, owlPath).Some? && ResolvePath(path, owlPath).value !in existing ==>
        outcome == Done && onto == old(onto) && calls == old(calls)
      ensures ResolvePath(path, owlPath).Some? && ResolvePath(path, owlPath).value in existing ==>
        var file := ResolvePath(path, owlPath).value;
        calls == old(calls) + [LoadCall(file)] &&
        match loadOntology(file)
        case Ok(loaded) => outcome == Done && onto == loaded
        case Err(message) =>
          outcome == Raised(LibraryError(message)) && initialized == old(initialized) && onto == old(onto)
    {
      var loadPath := ResolvePath(path, owlPath);
      if loadPath.None? {
        return Raised(ValueError);
      }
      var file := loadPath.value;
      if file !in existing {
        initialized := true;
        return Done;
      }
      calls := calls + [LoadCall(file)];
      var loaded := loadOntology(file);
      if loaded.Err? {
        return Raised(LibraryError(loaded.error));
      }
      onto := loaded.value;
      initialized := true;
      outcome := Done;
    }

    /** save: RuntimeError before load (checked before the path), then
        ValueError without a path; otherwise the ontology is handed to the
        library, whose failure is re-raised. The manager's own state is
        never changed. */
    method Save(path: Option<string>, saveOntology: Saver) returns (outcome: Outcome)
      requires Valid()
      modifies this`calls
      ensures !initialized ==> outcome == Raised(RuntimeError) && calls == old(calls)
      ensures initialized && ResolvePath(path, owlPath).None? ==>
        outcome == Raised(ValueError) && calls == old(calls)
      ensures initialized && ResolvePath(path, owlPath).Some? ==>
        var file := ResolvePath(path, owlPath).value;
        calls == old(calls) + [SaveCall(onto, file)] &&
        match saveOntology(onto, file)
        case None => outcome == Done
        case Some(message) => outcome == Raised(LibraryError(message))
    {
      if !initialized {
        return Raised(RuntimeError);
      }
      var savePath := ResolvePath(path, owlPath);
      if savePath.None? {
        return Raised(ValueError);
      }
      calls := calls + [SaveCall(onto, savePath.value)];
      var failure := saveOntology(onto, savePath.value);
      outcome := if failure.Some? then Raised(LibraryError(failure.value)) else Done;
    }

    /** reason: RuntimeError before load; otherwise the reasoner runs, and
        its failure (given here as `reasonerFailure`) is re-raised. */
    method Reason(reasonerFailure: Option<string>) returns (outcome: Outcome)
      requires Valid()
      modifies this`calls
      ensures !initialized ==> outcome == Raised(RuntimeError) && calls == old(calls)
      ensures initialized ==>
        calls == old(calls) + [ReasonerCall] &&
        outcome == (if reasonerFailure.Some? then Raised(LibraryError(reasonerFailure.value)) else Done)
    {
      if !initialized {
        return Raised(RuntimeError);
      }
      calls := calls + [ReasonerCall];
      outcome := if reasonerFailure.Some? then Raised(LibraryError(reasonerFailure.value)) else Done;
    }

    /** import_ontology: RuntimeError before load; a prefix already in the
        table is skipped without reaching the library; otherwise the IRI is
        loaded and, on success, recorded under the prefix, which adds
        exactly one entry. A failed load re-raises and leaves the table as
        it was. */
    method ImportOntology(iri: string, prefix: string, loadOntology: Loader) returns (outcome: Outcome)
      requires Valid()
      modifies this`importedOntologies, this`calls
      ensures Valid()
      ensures !initialized ==>
        outcome == Raised(RuntimeError) && importedOntologies == old(importedOntologies) && calls == old(calls)
      ensures initialized && prefix in old(importedOntologies) ==>
        outcome == Done && importedOntologies == old(importedOntologies) && calls == old(calls)
      ensures initialized && prefix !in old(importedOntologies) ==>
        calls == old(calls) + [LoadCall(iri)] &&
        match loadOntology(iri)
        case Ok(loaded) =>
          outcome == Done && importedOntologies == old(importedOntologies)[prefix := loaded] &&
          |importedOntologies| == |old(importedOntologies)| + 1
        case Err(message) =>
          outcome == Raised(LibraryError(message)) && importedOntologies == old(importedOntologies)
    {
      if !initialized {
        return Raised(RuntimeError);
      }
      if prefix in importedOntologies {
        return Done;
      }
      calls := calls + [LoadCall(iri)];
      var loaded := loadOntology(iri);
      if loaded.Err? {
        return Raised(LibraryError(loaded.error));
      }
      importedOntologies := importedOntologies[prefix := loaded.value];
      outcome := Done;
    }
  }

  /** A manager created without a path cannot load, and refuses to save,
      reason or import until it has been loaded. */
  method FreshManagerGuards(loadOntology: Loader, saveOntology: Saver)
  {
    var m := new OntologyManager(None);
    var o := m.Save(None, saveOntology);
    assert o == Raised(RuntimeError);
    o := m.Reason(None);
    assert o == Raised(RuntimeError);
    o := m.ImportOntology("http://purl.obolibrary.org/obo/chebi.owl", "chebi", loadOntology);
    assert o == Raised(RuntimeError);
    o := m.Load(None, {}, loadOntology);
    assert o == Raised(ValueError) && !m.initialized;
    assert m.calls == [];
  }

  /** Importing under a prefix that is already taken keeps the first
      import and does not reach the library again. */
  method ImportTwiceKeepsFirst(loadOntology: Loader)
    requires loadOntology("first.owl").Ok?
  {
    var m := new OntologyManager(Some("aim2.owl"));
    var o := m.Load(None, {}, loadOntology);
    assert o == Done && m.initialized && m.onto == BaseOntology;
    o := m.ImportOntology("first.owl", "p", loadOntology);
    assert m.importedOntologies == map["p" := loadOntology("first.owl").value];
    o := m.ImportOntology("second.owl", "p", loadOntology);
    assert o == Done && m.importedOntologies == map["p" := loadOntology("first.owl").value];
    assert m.calls == [LoadCall("first.owl")];
  }
}
