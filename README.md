# AIM2 ontology manager, schema and configuration — a Dafny model

AIM2 builds an OWL ontology whose core classes are structural, source and functional
annotations. This project models
three parts of its core and proves properties of each:

- **The ontology schema** (`init_ontology`), in `schema.dfy`, module `Schema`. The
  classes are `Annotation` and its three subclasses under `Thing`. The property table
  covers 19 properties. For each it records the kind (object, data or annotation),
  domain, range, whether it is functional, its super-property and its inverse.
  Everything is constant data. The lemmas show:
  - the class hierarchy is a partial order rooted at `Thing`;
  - the regulation properties sit under `affects` with compatible domain and range;
  - `inverse` is an involution with no fixed point.
- **The configuration loader** (`aim2/config.py`), in `config_text.dfy` (module
  `ConfigText`) and `config.dfy` (module `Config`). It chooses the configuration file:
  an explicit path first, then `AIM2_CONFIG`, then the first existing default
  location. It then reads the YAML document and applies `AIM2_`-prefixed environment
  variables as overrides of nested settings, converting each value to the type of the
  setting it replaces. Finally it caches the result: `get_config` returns the cache,
  and `reload_config` clears it first.
  - `ConfigText` holds the string operations the overrides rely on: ASCII lowercasing,
    Python's `str.split("__")` and Python's `int()` on decimal strings. Two round trips
    are proved: `"__".join(s.split("__")) == s`, and `int(str(n)) == n` for every n of at
    most 4300 digits.
  - `Config` holds the override walk as a function on YAML values, with a loop method
    proved against it, the path search as a for/else loop, and the cache as a class.
- **The ontology manager** (`AIM2Ontology`), in `manager.dfy`, module `Manager`. It is
  a class whose methods `Load`, `Save`, `Reason` and `ImportOntology` update the
  current ontology, the "initialized" flag and the import table. The contracts state
  what happens in each state:
  - each guard, in the source's order;
  - the precedence between the path argument and the default path;
  - the "missing file starts fresh" policy of `load`;
  - that a duplicate import prefix is skipped.

  Calls into owlready2 are function parameters that may fail. A ghost log records
  each call made, so the contracts can also say when the library is *not* reached.

Shared `Option`/`Result` types are in `wrappers.dfy`.

Three behaviours of the manager code are worth stating plainly:

- `load` on a missing file keeps the ontology the manager already holds; it does not
  create a new empty one.
- `import_ontology` on a taken prefix returns `None`; it does not return the earlier
  import.
- With neither a path argument nor a default path, `load` and `save` raise `ValueError`.

Two scenario methods in `manager.dfy` are worked examples of the manager's contracts
in sequence. `FreshManagerGuards` shows that a manager created without a path refuses
to save, reason or import, and that `load` raises `ValueError`, all without reaching
the library. `ImportTwiceKeepsFirst` shows that a second import under a taken prefix
keeps the first import and makes no second library call.

The override walk raises `TypeError` when a level on the path exists but is not a
dict, and `AttributeError` when the dict that should hold the leaf is something else.
The model returns both as errors instead of requiring them away.

Since `AIM2_CONFIG` itself carries the `AIM2_` prefix, the code also stores the
configuration path as the setting `config["config"]`.
`Config.ConfigVariableIsAlsoAnOverride` states this.

## Model

| member | source | states |
|---|---|---|
| Schema.DeclaredSuperclasses | aim2/ontology/schema.py:40-54 | Annotation's superclass is Thing; StructuralAnnotation, SourceAnnotation and FunctionalAnnotation each have superclass Annotation |
| Schema.SuperclassOneLevelUp | aim2/ontology/schema.py:40-54 | only Thing has no superclass, and every superclass link goes exactly one level up the hierarchy |
| Schema.Ancestors | aim2/ontology/schema.py:40-54 | the superclass chain of a class starts at the class, follows declared superclass links, ends at Thing and repeats no class |
| Schema.HierarchyRootedAndAcyclic | aim2/ontology/schema.py:40-54 | every class is a subclass of Thing and no class appears again among its own proper ancestors |
| Schema.AncestorsSuffix | aim2/ontology/schema.py:40-54 | the chain of any ancestor is the rest of the descendant's chain from that ancestor on |
| Schema.AncestorLevel | aim2/ontology/schema.py:40-54 | a superclass is never deeper than its subclass, is the class itself at equal depth, and its chain is a suffix of the subclass's chain |
| Schema.SubclassStep | aim2/ontology/schema.py:40-54 | a class is a subclass of d exactly when it is d or its declared superclass is a subclass of d |
| Schema.SubclassTransitive | aim2/ontology/schema.py:40-54 | the subclass relation is transitive |
| Schema.SubclassAntisymmetric | aim2/ontology/schema.py:40-54 | the subclass relation is reflexive and antisymmetric, so with transitivity a partial order |
| Schema.PropertyKinds | aim2/ontology/schema.py:31-151 | hasSource is the only annotation property, hasConfidence the only data property, and every other property is an object property |
| Schema.OnlyConfidenceIsFunctional | aim2/ontology/schema.py:31-151 | a property is functional exactly when it is hasConfidence |
| Schema.AnnotationLinkRanges | aim2/ontology/schema.py:74-87 | has_functional/structural/source_annotation have domain [Thing] and range FunctionalAnnotation, StructuralAnnotation and SourceAnnotation respectively |
| Schema.ObjectPropertyShape | aim2/ontology/schema.py:57-151 | every object property declares the domain [Thing] and exactly one range class |
| Schema.ObjectPropertiesTyped | aim2/ontology/schema.py:57-151 | every object property has exactly one domain class, Thing, and one range class, which is a subclass of Thing |
| Schema.SuperProperties | aim2/ontology/schema.py:100-128 | the super-property chain starts at the property, follows declared super-property links, ends at a top-level property and repeats nothing |
| Schema.SubPropertiesOfAffects | aim2/ontology/schema.py:100-128 | the properties strictly below affects are exactly upregulates, downregulates, inhibits and activates, and affects is top-level |
| Schema.SubPropertyCompatible | aim2/ontology/schema.py:100-128 | every super-property of a property has the same domain and range as the property |
| Schema.InverseIn | aim2/ontology/schema.py:62-151 | the inverse lookup returns a partner exactly when some declared pair links the property to it |
| Schema.InverseInUnique | aim2/ontology/schema.py:62-151 | in a table where no property occurs in two pairs or pairs with itself, any pair linking p to q makes q the inverse of p |
| Schema.InverseInvolutionIn | aim2/ontology/schema.py:62-151 | over such a table no property is its own inverse, and taking the inverse twice gives back the property |
| Schema.InverseInvolution | aim2/ontology/schema.py:62-151 | for the declared pairs no property is its own inverse, and taking the inverse twice gives back the property |
| Schema.InversePairsWellFormed | aim2/ontology/schema.py:62-151 | no property occurs in two declared inverse pairs and none is paired with itself |
| Schema.DeclaredInverses | aim2/ontology/schema.py:62-151 | the inverse pairs are has_part/part_of, has_participant/participates_in and has_location/located_in, read in both directions |
| Schema.OnlyPairedPropertiesHaveInverses | aim2/ontology/schema.py:62-151 | a property has an inverse exactly when it is one of the six properties named in the declared pairs |
| ConfigText.LowerChar | aim2/config.py:90 | lower-casing maps A–Z to a–z and leaves every other character as it is |
| ConfigText.Lower | aim2/config.py:90 | lower-casing keeps the length and lower-cases each character in place |
| ConfigText.LowerIdempotent | aim2/config.py:90 | lower-casing twice is lower-casing once |
| ConfigText.Split | aim2/config.py:90 | splitting on `__` yields at least one part; the first part is a prefix of the input and no part contains `__` |
| ConfigText.JoinSplit | aim2/config.py:90 | joining the parts of a split with `__` gives back the original string |
| ConfigText.SplitJoin | aim2/config.py:90 | splitting the `__`-join of parts gives back the parts, when no part contains `__`, no non-last part ends in `_` and the last part contains no `__` |
| ConfigText.SplitNoSeparator | aim2/config.py:90 | a string without `__` splits into itself alone |
| ConfigText.TrimStart | aim2/config.py:104 | the leading white space int() skips (tab, line feed, vertical tab, form feed, carriage return, space) is removed: what remains is a suffix of the input that does not start with such white space, and everything dropped is such white space |
| ConfigText.TrimEnd | aim2/config.py:104 | the trailing white space int() skips is removed: what remains is a prefix of the input that does not end with such white space, and everything dropped is such white space |
| ConfigText.DigitRunUnderscoresBetweenDigits | aim2/config.py:104 | a digit run (starts and ends with a digit, only digits and underscores, no two underscores in a row) is exactly a non-empty string in which every character is a digit or an underscore with a digit on each side, the underscore rule of int() |
| ConfigText.DropUnderscores | aim2/config.py:104 | the digit-group underscores Python's int() accepts are removed: the result has no underscore, and a string without underscores is unchanged |
| ConfigText.DropUnderscoresKeeps | aim2/config.py:104 | only underscores are removed: every other character occurs in the result exactly as often as in the input |
| ConfigText.DropUnderscoresAppend | aim2/config.py:104 | removing underscores distributes over concatenation, so the kept characters stay in their input order |
| ConfigText.ParseInt | aim2/config.py:104 | int(value) succeeds only when the value, stripped of the white space int() skips at both ends, is non-empty, starts with a digit or a sign and otherwise holds only digits and underscores; a negative result needs a minus sign. The definition accepts an optional sign followed by a digit run of at most 4300 digits and is None wherever int() raises ValueError |
| ConfigText.PlainDigitsParse | aim2/config.py:104 | int() of a plain string of 1 to 4300 ASCII digits is its decimal value |
| ConfigText.ShowNat | aim2/config.py:104 | the decimal form of a natural number is a non-empty run of digits |
| ConfigText.DecimalValueShowNat | aim2/config.py:104 | the decimal form of n has value n |
| ConfigText.ShowNatParses | aim2/config.py:104 | the decimal form of n, when it has at most 4300 digits, is a digit run that parses to n |
| ConfigText.ParseShowInt | aim2/config.py:102-106 | int(str(i)) == i for every integer i, negative ones included, whose decimal form is within the 4300-digit limit of int() |
| ConfigText.SeparatorBeforeDigitRejected | aim2/config.py:102-106 | int() does not skip the separator 0x1C, which str.isspace() accepts, so "\x1c5" fails to parse |
| ConfigText.TooManyDigitsRejected | aim2/config.py:102-106 | int() of a string of more than 4300 digits fails, as CPython's default digit limit makes it raise ValueError |
| Config.Coerce | aim2/config.py:99-113 | a bool setting becomes true exactly when the lower-cased value is one of true/1/t/y/yes; an int setting takes the parsed integer when the value parses and the raw string otherwise; a float setting likewise with float(); a missing or other setting takes the raw string |
| Config.IntOverrideRoundTrip | aim2/config.py:102-106 | overriding an integer setting with str(n) stores the integer n, for n within the 4300-digit limit of int() |
| Config.SeparatorOverrideKeepsString | aim2/config.py:102-106 | an int setting overridden with "\x1c5" stores the raw string, because int() raises on the separator 0x1C and the except branch keeps the string |
| Config.LongIntOverrideKeepsString | aim2/config.py:102-106 | overriding an integer setting with more than 4300 digits stores the raw string, because int() raises and the except branch keeps the string |
| Config.BoolOverrideIgnoresCase | aim2/config.py:100-101 | the boolean reading of an override does not depend on letter case |
| Config.SetPath | aim2/config.py:92-113 | one override's walk fails only with TypeError or AttributeError, and fails at once on a setting that is not a dict (AttributeError at the leaf's container, TypeError above it); on success the dict keeps every other key's value and gains the path's first key, holding the coerced value at the last key and a dict at every level above it, a missing level being created |
| Config.SetPathFailsIffBlocked | aim2/config.py:92-113 | one override fails exactly when some level on its path, or the container of its leaf, exists but is not a dict |
| Config.SetPathEffect | aim2/config.py:92-113 | a successful override stores at its path the value coerced against what was there before, and every setting on an unrelated path keeps its value |
| Config.SetPathBuildsLevels | aim2/config.py:94-97 | after a successful override every level of the path is a dict, a missing level having been created, and each level has gained exactly the next key of the path |
| Config.KeyPath | aim2/config.py:89-90 | the setting addressed by an `AIM2_` variable is a non-empty key path: the rest of the name, lower-cased and split on `__` |
| Config.FailureIsFinal | aim2/config.py:84-113 | once an entry's override raises, the whole application of the environment raises that error |
| Config.ApplyEnvironmentOverrides | aim2/config.py:63-115 | the loop over the environment computes the entry-by-entry application of the overrides to the input, stopping at the first failure; the input value itself is not changed |
| Config.Prefixed | aim2/config.py:85-87 | the filtered environment holds only `AIM2_` entries |
| Config.OnlyPrefixedEntriesMatter | aim2/config.py:85-87 | applying the whole environment gives the same result as applying only its `AIM2_` entries |
| Config.UntargetedSettingsKept | aim2/config.py:80-113 | a setting whose path is unrelated to every override's path keeps its original value |
| Config.LastEntryWins | aim2/config.py:84-113 | after the last entry's override, its setting holds that entry's value, coerced against what the earlier entries left there |
| Config.DatabaseHostKeyPath | aim2/config.py:67-70 | AIM2_DATABASE__HOST addresses config["database"]["host"] |
| Config.ConfigVariableIsAlsoAnOverride | aim2/config.py:84-90 | AIM2_CONFIG is itself applied as an override of the top-level setting config["config"]: the path is coerced against whatever that setting held, every other setting is kept, and with no such setting the path string is stored |
| Config.EnvGetLast | aim2/config.py:38 | reading a variable gives nothing exactly when no entry has that name, and otherwise the value of the last entry with that name |
| Config.FirstExisting | aim2/config.py:42-46 | the search returns the first location that exists, or nothing when none exists |
| Config.ConfigPath | aim2/config.py:36-55 | an explicit path is used if given, else a non-empty AIM2_CONFIG, else the first existing default location; a chosen path that does not exist is FileNotFoundError for that path, no existing default is FileNotFoundError, a returned path always exists and a path named in FileNotFoundError never does |
| Config.ReadConfig | aim2/config.py:57-61 | a file that fails YAML parsing raises for that path; otherwise a truthy document is returned as parsed and a falsy one becomes an empty dict |
| Config.LoadConfigFile | aim2/config.py:22-61 | the for/else search over the default locations and the existence check compute exactly the chosen path's contents or its error |
| Config.ConfigCache.constructor | aim2/config.py:19-20 | the cache starts empty |
| Config.ConfigCache.GetConfig | aim2/config.py:117-148 | a cached configuration is returned unchanged whatever the arguments, environment or files now say; otherwise the loaded, overridden configuration is returned and cached only when loading succeeded |
| Config.ConfigCache.ReloadConfig | aim2/config.py:150-164 | the configuration is always loaded afresh, and the cache afterwards holds it when loading succeeded and is empty otherwise |
| Manager.ResolvePath | aim2/ontology/manager.py:53-55 | a non-empty explicit path is the result; otherwise the default is the result; so there is no path exactly when neither is available |
| Manager.OntologyManager.constructor | aim2/ontology/manager.py:28-42 | a new manager keeps a default path only when a non-empty one was given, is not initialized, has no imports and holds the base ontology |
| Manager.OntologyManager.Load | aim2/ontology/manager.py:46-69 | with no path, ValueError and nothing changes; a missing file initializes and keeps the ontology without calling the library; otherwise the file is loaded: success replaces the ontology and initializes, and failure re-raises and leaves the flag and the ontology as they were |
| Manager.OntologyManager.Save | aim2/ontology/manager.py:71-94 | before initialization, RuntimeError, checked before the path; then ValueError without a path; otherwise the current ontology is saved to the explicit path or the default, a library failure re-raises, and no manager field changes |
| Manager.OntologyManager.Reason | aim2/ontology/manager.py:96-109 | before initialization, RuntimeError and no reasoner run; otherwise the reasoner runs once and its failure re-raises |
| Manager.OntologyManager.ImportOntology | aim2/ontology/manager.py:111-133 | before initialization, RuntimeError; a prefix already present is skipped without calling the library; otherwise a successful load adds exactly the one entry prefix ↦ ontology, and a failed load re-raises and leaves the table unchanged; an uninitialized manager never has imports |

## Left out

- owlready2 itself is not part of this model: `get_ontology(...).load()`, `onto.save(..., format="rdfxml")` and `sync_reasoner()`. These are function parameters or outcomes that may fail with a message. RDF/XML serialization, reasoning and entailment are not modelled.
- The manager's `world` attribute (`self.onto.world or default_world`) is not modelled; no modelled operation reads it.
- `init_ontology`'s owlready2 objects (the namespace, the ontology object, the `python_name` attributes) and the module-level `onto` singleton are not modelled. The schema is a constant table. The manager's starting ontology is identified by the base IRI.
- Logging, and `mkdir` of the parent directory before a save, are not modelled.
- Manager.OntologyManager.Load: paths are plain strings and file existence is a set of strings. `Path` normalisation and a directory passed as the path are not modelled.
- Config.Coerce: Python's `float()` is the `parseFloat` parameter, because floating-point parsing is not modelled.
- ConfigText.LowerChar: lower-cases ASCII letters only; Python's `str.lower` also maps other Unicode letters.
- ConfigText.TrimStart: strips only the ASCII white space `int()` skips (tab, line feed, vertical tab, form feed, carriage return, space); `int()` also skips non-ASCII Unicode white space.
- ConfigText.TrimEnd: strips only the ASCII white space `int()` skips (tab, line feed, vertical tab, form feed, carriage return, space); `int()` also skips non-ASCII Unicode white space.
- ConfigText.ParseShowInt: the model's `int()` accepts ASCII digits only; Python also accepts other Unicode decimal digits.
- ConfigText.ParseInt: the digit limit is CPython's default of 4300 digits (`sys.get_int_max_str_digits()`); a limit changed with `sys.set_int_max_str_digits` or `PYTHONINTMAXSTRDIGITS`, and Python builds without the limit, are not modelled.
- Reading the environment is not modelled. `os.environ` is an ordered sequence of name/value pairs, taken in the order `os.environ.items()` yields them. `os.environ` never repeats a name; where the model's sequence does, `EnvGet` reads the last pair and the override pass applies every pair in turn, so an earlier pair can change how a later one is coerced.
- Reading and parsing files are not modelled. The file system is a map from path to either a parsed YAML document or a parse failure. It holds files only: a directory at the chosen path passes `exists()` and then `open` raises `IsADirectoryError`, where the model reports `ConfigFileNotFound`. Paths are plain strings, so the `Path(...)` normalisation of an explicit path or of `AIM2_CONFIG` is not modelled. YAML features beyond plain values are not modelled: anchors that share one object, non-string keys and dict key order.
- `copy.deepcopy` is not modelled as such. Configuration values are immutable in the model, so the input of an override pass is left untouched by construction.
- `get_config` hands back the cached dict itself, so a caller that mutates it changes the cache. The model returns a value and does not capture that aliasing.
