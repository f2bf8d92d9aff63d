# Glottolog languoids, modelled in Dafny

This project models the languoid record of pyglottolog (`pyglottolog/languoids.py`).
A languoid is a language, a family or a dialect in the Glottolog classification tree.
Each one has a descriptor: the `core` section of an INI file, holding name, glottocode, level,
ISO code and classification status. It also has a lineage, the root-first list of its ancestors,
each given as (name, id, level). Finally it has a directory in the tree, whose path spells out
the lineage.

The model covers:

- **Identifiers.** The id pattern (`Identifiers.IsId`) accepts two forms: four lower-case
  letters or digits followed by four digits, or `NOCODE` optionally followed by `_` and a suffix.
  `Levels` holds the closed set of levels (family, language, dialect).
- **The descriptor and its accessors.** `Descriptor` models the `core` section as a map from
  option to string, with the getters and setters and the alias pairs. `SetAttribute` is the
  effect of `setattr(languoid, attr, value)`.
- **The languoid object.** `Languoids.Languoid` is a class with the fields `cfg`, `lineage` and
  `dir`. It has:
  - the constructor's lineage check;
  - the in-place setters;
  - `lff_group` and `lff_language`;
  - the class methods `from_ini`, `from_dir`, `from_name_id_level` and `from_lff`.

  The memo dictionary `nodes`, which `from_ini` and `from_dir` share and update, is an explicit
  `NodeCache` object.
- **Loading from the tree.** `TreeStore` specifies `from_ini` and `from_dir` as functions over an
  abstract file system. The file system maps each directory path to its listing. A file entry
  carries its descriptor's `core` section. The lemmas there state which lineage the walk over
  the enclosing directories rebuilds, and what it leaves in the cache.
- **The flat format.** `Lff` covers the group label (`lff_group`), the record line
  (`lff_language`), and the parser `from_lff`. It includes a round trip on the domain of `Lff.LffRoundTrip`:
  for a languoid that is not an isolate or an unclassified dialect, whose names hold no brackets,
  whose name has no surrounding whitespace, whose ISO code holds no `]`, and whose record line
  carries no status, the label and record line parse back to its name, glottocode, level, ISO
  code (when non-empty) and shown ancestors, the ancestors with levels given by position.
- **Glottocode allocation.** `Glottocodes` models glottocode allocation (`glottocode_for_name`).
  It pads the slug's first four characters, bumps a per-prefix counter that starts at 1233, and
  writes the counters back unless this is a dry run.
- **String helpers.** `Text` holds the Python string operations the code relies on (`find`,
  `split`, `join`, `strip`, `'%s' % n`), with Python's semantics.

Errors the source raises are `Failure` values of `Wrappers.Result`, one `Errors.Error`
constructor per cause. They cover `AssertionError`, `ValueError` and `AttributeError`, the
`TypeError` of matching a missing id (`Errors.MissingId`), and the `OSError` of listing a
missing directory (`Errors.NotADirectory`).

## Model

| member | source | states |
|---|---|---|
| Identifiers.IdExamples | pyglottolog/languoids.py:20 | `abcd1234`, `NOCODE_Foo-1` and `NOCODE` match the id pattern; `abcd123`, `AB1234`, `NOCODE_` and `abcd12345` do not (the match is anchored at both ends) |
| Identifiers.FormsDisjoint | pyglottolog/languoids.py:20 | no string matches both alternatives of the pattern |
| Identifiers.IdAlphabet | pyglottolog/languoids.py:31 | every id has at least six characters, all from `[A-Za-z0-9_-]`, and starts with `N` or `[a-z0-9]`; so no id holds a bracket, comma or space |
| Levels.Parse | pyglottolog/languoids.py:23-26 | `Level(s)` succeeds exactly for the three level values, and gives the level whose value is `s` |
| Lineages.ValidateLineage | pyglottolog/languoids.py:39-42 | the lineage is accepted iff every entry has an id matching the pattern and a level; the first entry (in order) without an id fails with `MissingId` (`match(None)` raises), or, if its id matches, without a level fails with `InvalidLevel` (`Level(level)` raises); when no entry raises, a rejection is the assertion's `InvalidLineage`; an accepted lineage keeps every (name, id, level) entry in order |
| Lineages.LineageErrorOrder | pyglottolog/languoids.py:40-41 | the list comprehension runs to the end before the assertion: a bad id early in the lineage does not hide a later entry's `ValueError` or `TypeError`, and a bad id short-circuits its own entry's level check |
| Lineages.DefaultDir | pyglottolog/languoids.py:44 | the default directory is the tree root followed by the ancestors' ids in order, without the languoid's own id |
| Languoids.Languoid.New | pyglottolog/languoids.py:33-44 | construction succeeds iff the lineage check does, and fails with the error `ValidateLineage` names; the new object holds the given descriptor, the checked lineage, and the given directory or else the default one |
| Descriptor.Get | pyglottolog/languoids.py:144-148 | `_get` without a type: the option's value, or no value when the option is missing (`fallback=None`); the typed read of the level is `Descriptor.ReadLevel` |
| Descriptor.Set | pyglottolog/languoids.py:141-142 | `_set` makes the key read back the value; every other key reads as before |
| Descriptor.ReadLevel | pyglottolog/languoids.py:203-205 | the level getter reads a missing (or empty) option as no level and a level value as that level; any other value fails with `InvalidLevel` |
| Descriptor.WriteLevel | pyglottolog/languoids.py:207-209 | the level setter succeeds iff the value is a level value; the level then reads back, and no other option changes |
| Descriptor.SetAttribute | pyglottolog/languoids.py:159-233 | `setattr(languoid, attr, value)` with a string value: the property setters write their option (the level setter through `WriteLevel`), `macroareas` fails `NotAList`, a read-only property fails `ReadOnlyAttribute`, any other name leaves the descriptor as it is; its properties are stated by `SetAttributeChangesOneKey` and `AliasesShareOptions` |
| Descriptor.SetAttributeChangesOneKey | pyglottolog/languoids.py:159-233 | a successful `setattr` changes no option except the one that attribute's setter writes |
| Descriptor.AliasesShareOptions | pyglottolog/languoids.py:167-225 | `id`/`glottocode` and `iso`/`iso_code` have the same effect, and each reads back what the other wrote |
| Descriptor.ApplyAttributes | pyglottolog/languoids.py:85-86 | the keyword arguments applied in order, stopping at the first failing setter; its properties are stated by `ApplyAttributesFrame` and `ApplyAttributesLastWrite` |
| Descriptor.ApplyAttributesFrame | pyglottolog/languoids.py:85-86 | after the keyword arguments are applied, an option that none of them writes is unchanged |
| Descriptor.ApplyAttributesLastWrite | pyglottolog/languoids.py:85-86 | an option reads the value of the last keyword argument that wrote it |
| Languoids.Languoid.SetAttr | pyglottolog/languoids.py:159-233 | setting an attribute updates the descriptor in place as `SetAttribute` says, leaves it unchanged on failure, and never touches lineage or directory |
| Languoids.NameIdLevelReadBack | pyglottolog/languoids.py:80-87 | for keyword arguments Python can bind (none named `cls`, `name`, `id` or `level`): a bad level fails with `InvalidLevel`; otherwise name and level read back as given, and so does the glottocode unless a `glottocode` keyword argument overwrote it |
| Languoids.Languoid.FromNameIdLevel | pyglottolog/languoids.py:80-87 | for keyword arguments Python can bind, the loop over the keyword arguments builds the descriptor `NameIdLevelCfg` describes, with an empty lineage and the tree root as directory; it stops at the first failing setter |
| Lff.NonFamilyTail | pyglottolog/languoids.py:254-256 | the dialect's shown ancestors are the longest suffix of the lineage with no family, and the entry before it (if any) is a family |
| Lff.GroupLabel | pyglottolog/languoids.py:253-262 | `lff_group` given name, level and lineage; its cases are stated by `GroupLabelCases` and its inverse by `GroupLabelParses` |
| Lff.GroupLabelCases | pyglottolog/languoids.py:253-262 | an isolate gets `<name> [-isolate-]`; otherwise the label is the `, `-join of `name [id]` over the shown ancestors; the label is `ERROR [-unclassified-]` iff the languoid is a dialect whose nearest ancestor is a family |
| Lff.LabelIsNotUnclassified | pyglottolog/languoids.py:261-262 | a non-empty join of segments is never the unclassified marker |
| Languoids.Languoid.LffGroup | pyglottolog/languoids.py:253-262 | `lff_group` succeeds iff the level can be read; a bad level fails with `InvalidLevel`, even for an isolate |
| Languoids.Languoid.LffLanguage | pyglottolog/languoids.py:264-268 | `lff_language` reads name, glottocode, iso code and status from the descriptor and formats them with `Lff.LanguageLine` |
| Lff.LanguageLine | pyglottolog/languoids.py:264-268 | the record line from name, id, iso code and status, `None` printed as `None` and a missing iso as empty; its cases are stated by `LanguageLineCases` and its inverse by `ParseLanguageLine` |
| Lff.LanguageLineCases | pyglottolog/languoids.py:264-268 | the record line starts with four spaces and ends with the iso bracket; a missing and an empty iso print alike; a status is appended after a space iff it is non-empty |
| Lff.ParseLanguageLine | pyglottolog/languoids.py:92-94 | `from_lff` splits a record line without status back into its name (after `strip`), glottocode and iso code |
| Lff.SplitCodes | pyglottolog/languoids.py:94 | the codes part splits at `][` into exactly the glottocode and the iso code |
| Lff.ParsedSegmentShape | pyglottolog/languoids.py:98-105 | every parsed segment has a name and an id, and the i-th gets family, or for a dialect record language first and dialect after |
| Lff.ParsedLineageLevels | pyglottolog/languoids.py:96-109 | the parsed lineage has one entry per `], `-separated segment (none for an absent or empty path), levelled by position |
| Lff.RecordCfgShape | pyglottolog/languoids.py:107-113 | the parsed descriptor holds name, glottocode and level, and the iso code only when it is non-empty |
| Lff.FromLff | pyglottolog/languoids.py:90-113 | `from_lff` as a value: splits the record line at the first `[` and the codes at `][`, parses the path segment by segment, and checks the lineage; a malformed line or segment fails with `MalformedLff`; its properties are stated by `FromLffShape` and `LffRoundTrip` |
| Lff.FromLffShape | pyglottolog/languoids.py:90-113 | a parsed record's level reads back as the given level; its iso option is never empty; it has no options besides name, glottocode, level and iso; its lineage has one entry per segment with the positional levels |
| Lff.GroupLabelParses | pyglottolog/languoids.py:97-105 | parsing a group label gives back the shown ancestors' names and ids in order, with the levels the parser assigns by position |
| Lff.LffRoundTrip | pyglottolog/languoids.py:90-113 | for a languoid that is not an isolate and not an unclassified dialect, whose name and shown ancestors' names hold no bracket, whose name has no surrounding whitespace, whose iso code holds no `]`, and whose record line carries no status: parsing its label and record line succeeds; name, glottocode, level and a non-empty iso code read back; the lineage is the shown ancestors, relevelled by position |
| Languoids.Languoid.FromLff | pyglottolog/languoids.py:89-113 | `from_lff` fails exactly when `Lff.FromLff` does, with the same error; otherwise the new languoid holds that record in its default directory |
| TreeStore.LoadDir | pyglottolog/languoids.py:47-51 | `from_dir` as a value: the first file of the listing, which must end in `.ini`, loaded with `LoadIni`; a directory without files gives no languoid |
| TreeStore.LoadDirReadsFirstFile | pyglottolog/languoids.py:48-51 | a loaded directory holds a file, and the loaded descriptor is that of the first file of its listing |
| TreeStore.LoadDirSpec | pyglottolog/languoids.py:47-51 | for a directory whose files carry its name as glottocode, loading its descriptor gives a languoid whose (name, id, level) can be read, caches that triple under the directory's name, and keeps every other cache entry; a directory without files leaves the cache as it was |
| Languoids.Languoid.FromDir | pyglottolog/languoids.py:47-51 | the loop finds the first file of the listing; a non-`.ini` file fails; the result and the new cache are those of `TreeStore.LoadDir` |
| TreeStore.WalkParents | pyglottolog/languoids.py:62-74 | the loop over `directory.parents` as a recursion: stop at the first name that is not an id, fail on the node's own directory name, take a cached ancestor or load it with `LoadDir` and cache it |
| TreeStore.WalkNames | pyglottolog/languoids.py:63-68 | the walk visits the contiguous run of enclosing directory names that match the id pattern, nearest first, and stops at the first that does not |
| TreeStore.WalkSpec | pyglottolog/languoids.py:63-73 | a successful walk collects one triple per visited name, with that id, and reuses cached triples unchanged; every old cache entry stays; every visited ancestor is cached; no visited name is the node's own directory name |
| TreeStore.ParentNameClash | pyglottolog/languoids.py:65 | a node whose parent directory has its own directory name is rejected with `AncestorClash` |
| TreeStore.LoadIni | pyglottolog/languoids.py:53-77 | `from_ini` as a value: read the descriptor, walk the parents, build the languoid from the reversed lineage, and cache its own triple |
| TreeStore.LoadIniSpec | pyglottolog/languoids.py:75-76 | `from_ini` keeps the cache coherent, records the node's own triple under its id, and keeps every other old entry |
| TreeStore.CheckoutLayout | pyglottolog/languoids.py:63-68 | a checkout whose `languoids` directory holds the counter store and an index page beside the tree, and whose node directory holds one descriptor named by it, is coherent and well laid out: the layout assumptions constrain node directories only, the ones the walk reads before it stops at the first name that is not an id |
| TreeStore.ReadIniGlottocode | pyglottolog/languoids.py:58-60 | in a coherent tree, a descriptor read from a node directory (one named by an id) has no glottocode or that directory's name |
| TreeStore.LoadIniLineage | pyglottolog/languoids.py:62-75 | for a node whose descriptor has no glottocode or its directory's name, the rebuilt lineage is the root-first run of matching directory names just above the node, ending at the first non-matching name; none is the node's own name; every ancestor is cached and cached ones are reused |
| TreeStore.SoundLoadIni | pyglottolog/languoids.py:70-76 | in a well-laid-out tree, for a node whose descriptor has no glottocode or its directory's name, `from_ini` keeps a sound cache sound: every cached id that names a node directory with a readable descriptor holds that descriptor's (name, id, level) |
| TreeStore.SoundWalk | pyglottolog/languoids.py:63-74 | the walk over the parents keeps a sound cache sound |
| TreeStore.SoundLoadDir | pyglottolog/languoids.py:47-51 | for a directory whose files carry its name as glottocode, `from_dir` keeps a sound cache sound |
| TreeStore.WalkReadsDescriptors | pyglottolog/languoids.py:63-73 | from a sound cache (the empty one, say), every ancestor the walk collects whose directory holds a readable descriptor carries that descriptor's name, id and level, whether newly loaded or cached |
| TreeStore.LoadIniReadsDescriptors | pyglottolog/languoids.py:62-76 | from a sound cache, for a node whose descriptor has no glottocode or its directory's name, every entry of the lineage `from_ini` rebuilds whose directory holds a readable descriptor has that descriptor's name, id and level, and the cache stays sound |
| Languoids.Languoid.FromIni | pyglottolog/languoids.py:53-77 | the loop over the parents, with its recursive loads through `FromDir`, gives the result and the new cache of `TreeStore.LoadIni` |
| Text.SplitJoin | pyglottolog/languoids.py:98 | joining pieces with a separator none of them contains, then splitting, gives back the pieces |
| Text.JoinSplit | pyglottolog/languoids.py:261 | splitting and joining again gives back the string |
| Text.StripPadded | pyglottolog/languoids.py:93 | `strip` removes exactly the surrounding whitespace of a name that has none at its ends |
| Text.ToCrlf | pyglottolog/languoids.py:246-250 | after the newline replacement every `\n` is preceded by `\r`; a text without `\n` is unchanged |
| Text.ToCrlfLines | pyglottolog/languoids.py:246-250 | a text of lines joined by `\n` becomes the same lines joined by `\r\n` |
| Glottocodes.PaddedPrefix | pyglottolog/languoids.py:332-335 | the prefix has four characters: the slug's first ones, then repeats of the last of them |
| Glottocodes.GlottocodeForName | pyglottolog/languoids.py:331-346 | an empty slug fails with the store unchanged; otherwise the code is the padded prefix followed by the bumped counter, and the store holds the bumped counters unless this is a dry run |
| Glottocodes.Allocation | pyglottolog/languoids.py:332-346 | the code and the counters for a non-empty slug, before any write; its properties are stated by `AllocationCounters`, `AllocationIsGlottocode`, `AllocationsDiffer` and `AllocationPastFourDigits` |
| Glottocodes.AllocationCounters | pyglottolog/languoids.py:339 | the prefix's counter becomes the old one plus one (1234 if absent); no other counter changes |
| Glottocodes.AllocationIsGlottocode | pyglottolog/languoids.py:332-346 | a lower-case alphanumeric slug with a four-digit counter gets a code of the glottocode form |
| Glottocodes.AllocationsDiffer | pyglottolog/languoids.py:339-346 | two allocations in a row from the same store never give the same code |
| Glottocodes.AllocationPastFourDigits | pyglottolog/languoids.py:339-346 | once a counter reaches 10000 the code has five digits and no longer matches the id pattern |

## Left out

- Directory walks are not modelled: `find_languoid` and `walk_tree` (file-system traversal).
- The `children`, `ancestors`, `parent` and `family` properties re-read directories; they appear only as read-only attribute names.
- `make_index`, `macro_area_from_hid` and `load_triggers` are not modelled. They write markdown or walk the whole tree, and `parse_conjunctions` from `pyglottolog/util.py` is not part of this model.
- `write_info` performs file I/O. Only its `\n` to `\r\n` replacement is modelled (`Text.ToCrlf`).
- `fname` only formats the id and a suffix (`'%s%s'`). It is used only by `write_info` and `make_index`, so it is not modelled.
- `pyglottolog/lff.py` (the flattener `tree2lff` and the rebuilder `lff2tree`) is not part of this model; only the languoid's own `lff_group`, `lff_language` and `from_lff` are.
- The `latitude` and `longitude` getters parse floats. Floating point is not modelled; their setters are.
- The `macroareas` getter and setter format lists through the INI library, which is not part of this model. Keyword values are strings, so setting `macroareas` always fails the list check.
- INI parsing and writing, JSON persistence and `slug` come from outside libraries. The descriptor is the `core` section as a string map, the counter store is a map, and `slug(name)` is an input string. Options without a value and other sections are not represented.
- Languoids.Languoid.FromIni: says nothing about the cache after a failure. The source leaves ancestors loaded before the failure in `nodes`.
- Descriptor.ReadLevel: reads an empty level option as no level, while the source returns `''`. Both fail the same lineage check and compare unequal to every level.
- TreeStore.LoadIniLineage: assumes `TreeStore.Coherent`: every file in a node directory (a directory named by an id) carries that name as its glottocode. Directories with other names, such as `languoids` with its index pages and `glottocodes.json`, may hold anything. The code relies on this layout but does not check it.
- TreeStore.LoadIniLineage, TreeStore.SoundLoadIni and TreeStore.LoadIniReadsDescriptors: also assume that the node's own descriptor has no glottocode or its directory's name (`TreeStore.NamedByDirectory`). `TreeStore.ReadIniGlottocode` gives this for every node in a node directory. Otherwise the node's own cache entry can overwrite an ancestor's.
- TreeStore.LoadIniSpec and TreeStore.WalkSpec: assume `TreeStore.Coherent` as well.
- TreeStore.LoadDirSpec and TreeStore.SoundLoadDir: assume `TreeStore.Coherent`, and that every file in the directory they start from carries its name (`TreeStore.DirCoherent`). That holds for every node directory of a coherent tree, which is where the walk calls `from_dir`.
- TreeStore.WalkSpec: does not itself tie a newly loaded ancestor's name and level to its directory's descriptor. `TreeStore.WalkReadsDescriptors` and `TreeStore.LoadIniReadsDescriptors` do, for trees that are also well laid out (`TreeStore.WellLaidOut`: a node directory holds at most one file, and no two node directories holding one share a name). Without that layout the cache, keyed by id alone, can hand one directory's triple to another, as in the source.
- `iterdir` order is taken to be the order of the directory listing in the file-system map.
- The tree root is a fixed path. A file that is missing or unreadable reads as an empty descriptor, as with `INI.read`.
- Python's `$` also matches before a trailing newline. This quirk is not modelled: an id ending in `\n` is rejected.
- Keyword arguments are applied in the order given. Setting the instance attributes `cfg`, `lineage`, `dir` or `section_core` through `setattr` replaces them in the source; the model treats them like any other plain attribute, which leaves the descriptor unchanged.
- The mutable default `nodes={}` of `from_ini` is an explicit `NodeCache` object that the caller passes in.
- Glottocodes.GlottocodeForName: does not sort the counters before writing them back, because key order is not observable in a map.
