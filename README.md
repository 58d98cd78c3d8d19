# conda-share core, modelled in Dafny

conda-share turns a conda environment into an environment file that can be shared.
It pins the packages the user actually asked for, plus the packages that pip installed.
To do that it combines three things conda reports about the environment:

- the `--from-history` export, which lists the packages that were requested by name;
- the full export, which gives the environment's name and channels;
- the `conda list --json` inventory, which gives every installed package with its version, build and channel.

From these it builds a `CondaEnv`, which `to_yaml` writes out as YAML text.
A separate query, `conda env list`, lists the environments that exist.

The model covers the library's core, `src/lib.rs`:

- `wrappers.dfy`: `Option` and `Result`. A `Result` error carries the message text, like `anyhow::Error`.
- `conda.dfy`: the records `CondaPackage` and `CondaEnv`, the `pypi` channel test, and `Versioned`, which says every dependency carries a version.
- `text.dfy`: the string operations the Rust code relies on.
  - `SplitOn` is `str::split` on one character. It always yields at least one segment.
  - `SplitLines` is `str::lines`. It splits on line feeds and drops an empty final segment. A `\r` directly before a line feed is part of the line ending and is removed. A `\r` at the very end of unterminated text stays.
  - `Words` is `str::split_whitespace`, over the Unicode White_Space characters. `Spaced` pads words with any runs of whitespace, as a table's columns are padded.
  - Each comes with its inverse and a round-trip lemma.
- `seqs.dfy`: `Filter`, which keeps the elements that pass a test, in order. It comes with its laws for concatenation, multiplicity and membership.
- `yaml.dfy`: `CondaEnv::to_yaml`.
  - It is an imperative method. It appends line after line to a string in loops, and returns at the first dependency without a version.
  - It is proved against `Layout`/`Render`, the line-by-line description of the file.
  - The lemmas say what the text contains, and that it reads back as the same lines.
- `queries.dfy`: what `conda_env_export` and `conda_list` do with a document that has already been parsed.
  - It covers splitting a `name=version=build` string, and the round trips of that split.
  - It covers the `filter_map` that keeps only string entries.
- `reconcile.dfy`: `sharable_env`.
  - It is an imperative method. It consults the three queries in order, then makes one pass over the inventory and grows the two dependency lists.
  - It is proved against the specification function `Reconciled`.
  - The lemmas cover how records are classified, how often each is kept, that inventory order is kept, and that a requested name missing from the inventory is dropped.
- `env_list.dfy`: `conda_env_list` after conda's output is in hand. A line gives its first column when it has at least two columns and the first is not `#`.
- `scenarios.dfy`: worked examples of one environment, reconciled and laid out.

Running conda and deserialising its output are not modelled.
Each query therefore enters the model as a `Result`: either the parsed document, or the error message that running or parsing produced.

An environment with pip packages but no conda dependencies gets no `dependencies:` header.
`to_yaml` (src/lib.rs:25-39) writes its `  - pip:` item straight after the channel lines.
In conda's environment-file format, `pip:` is nested under `dependencies:`, so for such an environment this output puts the pip item inside `channels:`.
The model keeps this behaviour: `Yaml.RenderText`, `Yaml.DependenciesHeaderIff` and `Scenarios.PipOnlyRendered` state it.

## Model

| member | source | states |
|---|---|---|
| Yaml.ToYaml | src/lib.rs:19-42 | fails with "Missing version" exactly when some conda or pip dependency has no version; otherwise returns `Render(env)`, the name line, `channels:` and its entries, the conda block and the pip block, each line ended by a line feed |
| Yaml.PushChannels | src/lib.rs:23-24 | appends one `  - <channel>` line per channel, in channel order, to the text built so far |
| Yaml.PushCondaBlock | src/lib.rs:25-31 | leaves the text unchanged when there are no conda dependencies; otherwise appends `dependencies:` and one `  - name=version` line per dependency; fails with "Missing version" exactly when one lacks a version |
| Yaml.PushPipBlock | src/lib.rs:33-39 | appends nothing when there are no pip dependencies; otherwise appends `  - pip:` and one `      - name==version` line per dependency; fails with "Missing version" exactly when one lacks a version |
| Yaml.RenderParts | src/lib.rs:20-39 | the rendered text is the name line, `channels:`, the channel lines, the conda block, then the pip block, in that order |
| Yaml.CondaBlockText | src/lib.rs:25-31 | the conda block's text is empty for no dependencies, else `dependencies:` followed by the dependency lines |
| Yaml.PipBlockText | src/lib.rs:33-39 | the pip block's text is empty for no pip dependencies, else `  - pip:` followed by the pip lines |
| Yaml.RenderText | src/lib.rs:19-42 | the whole text: `channels:` appears even with no channels; the conda block appears exactly when there are conda dependencies; the pip block appears exactly when there are pip dependencies, whether or not a `dependencies:` header precedes it |
| Yaml.LayoutLines | src/lib.rs:21-39 | the position and content of every line: name at 0, `channels:` at 1, channel k at 2+k, then the conda header and dependency k, then the pip header and pip dependency k; the line count is the sum of the blocks |
| Yaml.LayoutSingleLines | src/lib.rs:21-37 | when no field contains a line break, every written line is a single line |
| Yaml.RenderLines | src/lib.rs:19-42 | when no field contains a line break, splitting the text into lines gives back exactly the layout, so the file has no other lines |
| Yaml.DependenciesHeaderIff | src/lib.rs:25-26 | a `dependencies:` line is written if and only if there are conda dependencies |
| Yaml.PipHeaderIff | src/lib.rs:33-34 | a `  - pip:` line is written if and only if there are pip dependencies, whatever the conda dependencies, when no channel is named `pip:` |
| Reconcile.SharableEnv | src/lib.rs:59-82 | returns the first failure among history export, full export and inventory, in that order; otherwise the full export's name and channels, the inventory records whose name the history lists, and the inventory records from `pypi`, in inventory order |
| Reconcile.HistoryNames | src/lib.rs:69-72 | one name per history dependency, and a name is listed exactly when some history dependency carries it |
| Reconcile.Classification | src/lib.rs:68-79 | a record is a conda dependency if and only if it is in the inventory and the history names it; it is a pip dependency if and only if it is in the inventory with channel `pypi`; the tests are independent, and neither list is longer than the inventory |
| Reconcile.Multiplicity | src/lib.rs:68-79 | nothing is deduplicated: a record occurs in each list as often as in the inventory when it passes that list's test, otherwise not at all |
| Reconcile.InventoryOrder | src/lib.rs:68-79 | both lists keep inventory order: reconciling `a + b` concatenates the results for `a` and for `b` |
| Reconcile.InventoryWins | src/lib.rs:68-75 | a name the history lists but no inventory record carries never appears among the conda dependencies |
| Queries.ParsePackage | src/lib.rs:105-111 | the parsed record has no channel; name, version and build hold no `=`; a build only comes with a version |
| Queries.ParsedName | src/lib.rs:106-107 | the name is the text before the first `=`, and a string without `=` is a bare name with no version, build or channel |
| Queries.ParseUnparse | src/lib.rs:105-111 | a channel-less record whose fields hold no `=` survives being written as `name=version=build` and split again |
| Queries.UnparseParse | src/lib.rs:106-109 | writing a parsed string back gives exactly its first three `=`-separated segments (fewer if it has fewer) joined by `=`: the name is the first segment, the version the second, the build the third, later segments are lost; that is a prefix of the string, and the whole string when it has at most two `=` |
| Queries.ParseDeps | src/lib.rs:104-113 | no more packages than entries, none with a channel |
| Queries.ParseDepsStrings | src/lib.rs:104-113 | the packages are exactly the string entries, in order, each split by `ParsePackage`; other entries are dropped |
| Queries.CondaEnvExport | src/lib.rs:91-121 | a query failure is returned unchanged; otherwise name and channels are copied, every conda dependency comes from an entry and has no channel, and the pip list is empty |
| Queries.CondaList | src/lib.rs:123-138 | the inventory is the parsed document itself, every field of every record kept, and a failure is passed through |
| EnvList.EnvName | src/lib.rs:169-175 | a line yields a name only if that name is a non-empty, space-free token other than `#` |
| EnvList.EnvNames | src/lib.rs:167-177 | at most one name per line, each a token other than `#` |
| EnvList.CondaEnvList | src/lib.rs:163-181 | a query failure is returned unchanged; otherwise every listed name is a token other than `#` |
| EnvList.EnvNamesAppend | src/lib.rs:167-177 | names come out in line order: the names of `a + b` are those of `a` followed by those of `b` |
| EnvList.EnvNamesMember | src/lib.rs:167-177 | a name is listed if and only if some line yields it |
| EnvList.EnvNameOfRow | src/lib.rs:170-175 | a line of tokens padded before, between and after with any runs of whitespace (spaces, tabs, other Unicode whitespace) yields its first token exactly when it has at least two and the first is not `#` |
| EnvList.EnvNameStripCr | src/lib.rs:168-170 | a `\r` ending a line does not change the name the line yields, so `\r\n` line endings list the same names |
| EnvList.EnvNamesPointwise | src/lib.rs:167-177 | lines that yield the same name one for one yield the same listing |
| EnvList.EnvNamesTable | src/lib.rs:167-177 | lines laid out from rows of tokens with any whitespace padding yield the first token of every row with at least two tokens not starting with `#`, in row order |
| EnvList.EnvListOfText | src/lib.rs:166-179 | the same starting from the whole text: one padded row per line, each ended by `\n` or `\r\n`, comment and blank rows included |
| Text.IndexOf | src/lib.rs:106 | the position of the first occurrence of the separator, or the length when there is none |
| Text.SplitOn | src/lib.rs:106 | at least one segment, and none contains the separator |
| Text.JoinSplitOn | src/lib.rs:106 | joining the segments with the separator gives back the string |
| Text.SplitJoinOn | src/lib.rs:106 | splitting a join of separator-free parts gives back the parts |
| Text.JoinOnPrefix | src/lib.rs:106-109 | joining the first k segments gives a prefix of joining them all |
| Text.SplitJoinLines | src/lib.rs:168 | splitting into lines text made of single lines each ended by a line feed gives back those lines |
| Text.SplitJoinLinesCr | src/lib.rs:168 | lines without line feeds, each ended by a line feed, come back as they were except that a final `\r` is removed as part of a `\r\n` ending |
| Text.UnterminatedLine | src/lib.rs:168 | text without a line feed is a single line, kept whole even when it ends in `\r` |
| Text.WordsSpaced | src/lib.rs:170 | splitting on whitespace gives back non-empty, whitespace-free tokens however they are padded before, between and after, as long as some whitespace separates each pair |
| Text.WordsStripCr | src/lib.rs:168-170 | removing a final `\r` from a line leaves its whitespace-separated tokens unchanged |
| Seqs.Filter | src/lib.rs:104-113 | the kept elements all pass the test, and there are no more of them than inputs |
| Seqs.FilterCount | src/lib.rs:68-79 | each element is kept exactly as often as it occurs when it passes, never otherwise |
| Seqs.FilterMember | src/lib.rs:68-79 | an element is kept if and only if it occurs and passes |
| Seqs.FilterAppend | src/lib.rs:68-79 | filtering a concatenation concatenates the filtered parts, so order is kept |
| Scenarios.RequestedPackageReconciled | src/lib.rs:68-75 | a package requested by bare name is kept with the inventory's version and build |
| Scenarios.RequestedPackageRendered | src/lib.rs:21-31 | that environment is laid out as `name: demo`, `channels:`, `  - conda-forge`, `dependencies:`, `  - numpy=1.26.0` |
| Scenarios.PipOnlyReconciled | src/lib.rs:76-78 | a `pypi` package nobody requested still becomes a pip dependency |
| Scenarios.PipOnlyRendered | src/lib.rs:21-39 | with no conda dependencies, the `  - pip:` block directly follows `channels:`, with no `dependencies:` line |
| Scenarios.DualClassificationReconciled | src/lib.rs:73-78 | a `pypi` package the history also names lands in both lists |
| Scenarios.ActiveEnvRow | src/lib.rs:169-175 | the padded row `base   *  /opt/conda` names `base` |
| Scenarios.CommentRow | src/lib.rs:169-175 | the comment line `# conda environments:` names nothing |

## Left out

- `conda_command` (src/lib.rs:140-161) is not modelled. It spawns a process, checks the exit status and formats an error from stderr. Each query is a `Result` parameter instead, and its error text is opaque.
- The command-line arguments `conda_env_export` and `conda_list` pass to conda, including the environment name and `--from-history`, are not modelled. The caller supplies the result of each query.
- Deserialising YAML with serde_yaml and JSON with serde_json is not modelled, and neither is `String::from_utf8_lossy`. The model starts from the parsed document, or from the decoded text in the case of `conda env list`.
- `CondaEnv::save` (src/lib.rs:43-48) writes the file; that is I/O. Its text is `to_yaml`'s, which is modelled.
- src/main.rs and the GUI are not part of this model. That includes the CLI's check that the environment exists before exporting it.
- Yaml.PipHeaderIff: the "only if" direction assumes no channel is literally named `pip:`. A channel with that name would write the same line.
- Yaml.RenderLines: stated for fields that contain no line break. A name or version containing a line feed would make extra lines.
- Queries.CondaEnvExport: states only that no more conda dependencies come out than there are entries. The exact list is stated by Queries.ParseDepsStrings.
- Queries.YamlValue has no `Tagged` variant, so dependency entries with an explicit YAML tag (`!tag value`) are not modelled. Every entry in the model is untagged.
- Rust strings are UTF-8 bytes and Dafny strings are sequences of Unicode characters. Byte lengths and invalid UTF-8 are not modelled.
