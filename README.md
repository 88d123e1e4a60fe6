# Reviewer dashboard for a Bitbucket project: a Dafny model of its data shaping

The dashboard lists the repositories of a Bitbucket Server project. For the
repository the user highlights, it draws a bar chart of how often each
reviewer was assigned to a pull request. The `App` in `src/main.rs` does two
data-shaping steps on JSON records that have already been fetched. This
project models those two steps and proves what they guarantee.

- `download_repositories` keeps the `name` of every repository record whose
  `name` is a string, in order. The result replaces the repository list.
- `download_reviwers` runs only when a valid repository is highlighted. It
  takes the `user.displayName` of every reviewer entry of every pull request
  and cuts each name down to a two-piece key. It counts the keys in a hash
  map, lists the map's entries and sorts them by descending count. The result
  replaces the reviewer table.

Modules:

- `Wrappers`: `Option` and `Result`.
- `Json`: serde_json's `Value`. Indexing with a missing key, or indexing
  something that is not an object, gives `Null`. `as_str` and `as_array` give
  `None` when the kind does not match.
- `DisplayName`: `split(" ")` (`Split`), its inverse `Join`, and the
  two-piece key (`Normalize`).
- `Records`: the iterator pipelines. `RepositoryNames` is the repository-name
  projection. `ReviewerNames` flattens the reviewer display names.
- `Frequency`: the counting loop (`Tally`), the listing of the map's entries
  (`Entries`), the in-place descending sort (`SortByCount`) and the lemmas
  about the resulting table.
- `Dashboard`: the `App` class with the fields `repositories`, `selected` and
  `reviewers`, its two download methods, and `AggregateReviewers`, which is
  the body of the selected branch.

Both HTTP fetches are inputs. `DownloadRepositories` takes the fetched records
as a `Result`. `DownloadReviewers` takes a function from a repository name to
that repository's fetched pull requests. A failed fetch returns its error
unchanged, as `?` does.

Splitting on `" "` keeps punctuation: "John Q. Smith" gives the pieces
`John`, `Q.` and `Smith`, so its key is "John Q." with the period
(`DisplayName.NormalizeMiddleName`). A display name with no space has no
second piece, and `name[1]` panics. The model returns this as the outcome
`Status.Panicked(name)`, naming the first such display name, and leaves the
table unchanged.

## Model

| member | source | states |
|---|---|---|
| `Records.RepositoryName` | src/main.rs:61 | a record has a name exactly when it is an object whose `name` field is a string, and the name is that string; a missing field or another kind gives no name |
| `Records.RepositoryNames` | src/main.rs:56-63 | the projected list is never longer than the fetched records, and every name in it is the string `name` of some fetched record |
| `Records.RepositoryNamesComplete` | src/main.rs:61 | every record whose `name` is a string contributes that name, so a name is listed exactly when some record carries it |
| `Records.RepositoryNamesAppend` | src/main.rs:60-63 | the projection keeps order: the names of `a + b` are the names of `a` followed by those of `b` |
| `Records.RepositoryNamesKeepsAll` | src/main.rs:61-63 | nothing is dropped exactly when every record has a string `name`; otherwise records are skipped without error |
| `Records.RepositoryNamesMultiplicity` | src/main.rs:60-63 | duplicates are kept: each name occurs as often as records carry it |
| `Records.ReviewerEntries` | src/main.rs:79 | a pull request's entries are its `reviewers` array when that field is an array, and none otherwise |
| `Records.ReviewerDisplayName` | src/main.rs:81 | an entry has a display name exactly when `user` is an object whose `displayName` is a string, and the name is that string |
| `Records.EntryNames` | src/main.rs:81 | a pull request's reviewer names are no more than its entries, and each comes from an entry's string `user.displayName` |
| `Records.EntryNamesComplete` | src/main.rs:81 | every entry with a string `user.displayName` contributes it |
| `Records.EntryNamesLength` | src/main.rs:81 | one name per entry that has a string display name |
| `Records.EntryNamesMultiplicity` | src/main.rs:81 | duplicates are kept: each display name occurs among a pull request's names as often as its entries carry it |
| `Records.ReviewerNames` | src/main.rs:78-81 | every flattened name is the string display name of an entry of some pull request's `reviewers` array |
| `Records.ReviewerNamesMultiplicity` | src/main.rs:79-81 | each display name occurs in the flattened list as often as entries carry it, over the pull requests whose `reviewers` is an array |
| `Records.ReviewerNamesComplete` | src/main.rs:79-81 | every entry of an array-valued `reviewers` field that has a string display name contributes its name |
| `Records.ReviewerNamesAppend` | src/main.rs:76-81 | flattening keeps pull-request order across concatenated runs of records |
| `Records.ReviewerNamesLength` | src/main.rs:79-81 | the flattened list has one name per reviewer entry with a string display name, over the pull requests whose `reviewers` is an array; other pull requests and entries add nothing |
| `DisplayName.Split` | src/main.rs:83 | `split(" ")` gives one more piece than the name has spaces, and no piece holds a space |
| `DisplayName.JoinSplit` | src/main.rs:83 | joining the pieces with single spaces gives back the display name |
| `DisplayName.SplitJoin` | src/main.rs:83 | splitting the join of space-free pieces gives back the pieces (the other round trip) |
| `DisplayName.SplitKey` | src/main.rs:83-84 | a second piece exists exactly when the name has a space, and the first two pieces rejoined with one space are the prefix of the name with exactly one space, ending at the second space or at the end |
| `DisplayName.Normalize` | src/main.rs:83-84 | `format!("{} {}", name[0], name[1])`: a key exists exactly when the name has a space (otherwise `name[1]` panics); the key is the prefix of the name with exactly one space that ends at the second space or at the end of the name |
| `DisplayName.NormalizeIdempotent` | src/main.rs:83-84 | a key is its own key |
| `DisplayName.NormalizeTwoTokens` | src/main.rs:83-84 | "Jane Doe" is kept whole |
| `DisplayName.NormalizeMiddleName` | src/main.rs:83-84 | "John Q. Smith" becomes "John Q." |
| `DisplayName.NormalizeDoubleSpace` | src/main.rs:83-84 | "A  B" becomes "A " because of the empty middle piece |
| `DisplayName.NormalizeSingleToken` | src/main.rs:83-84 | "Madonna" has no key; this is the input on which `name[1]` panics |
| `Frequency.Occurrences` | src/main.rs:85-86 | a key's count is positive exactly when the key was seen |
| `Frequency.Frequencies` | src/main.rs:74 | the frequency map has exactly the keys seen, each with a count of at least 1 |
| `Frequency.CountsSnoc` | src/main.rs:85-86 | `entry(name).or_insert(0)` followed by `+= 1` adds one occurrence of that key and changes no other counter |
| `Frequency.NormalizeAll` | src/main.rs:82-84 | keys exist for all names exactly when every name has a space; the keys then align one-to-one with the names; otherwise the reported name is the first one without a space |
| `Frequency.NormalizeAllStopsAt` | src/main.rs:83-84 | the first name without a space is the one reported |
| `Frequency.NormalizeAllKeys` | src/main.rs:83-84 | when every name has a key, those keys in order are the result |
| `Frequency.OccurrencesCons` | src/main.rs:85-86 | counting from the front gives the same count as counting from the back |
| `Frequency.NamesKeyedAppend` | src/main.rs:82-86 | the number of names with a given key adds up over concatenated lists |
| `Frequency.OccurrencesOfKeys` | src/main.rs:82-86 | when every name has a key, a key is counted as often as display names normalise to it |
| `Frequency.Tally` | src/main.rs:74-87 | the counting loop yields the frequency map of the keys of all names, or fails on the first name without a second piece |
| `Frequency.Entries` | src/main.rs:89 | the collected pairs are exactly the map's entries, one per key, in an unspecified order |
| `Frequency.SortByCount` | src/main.rs:90 | the in-place sort leaves counts non-increasing and keeps the same rows (a permutation) |
| `Frequency.InsertDown` | src/main.rs:90 | one insertion step extends the sorted prefix by one row and permutes the array |
| `Frequency.Swap` | src/main.rs:90 | exchanging two rows changes nothing else and permutes the array |
| `Frequency.TablePermutation` | src/main.rs:89-90 | sorting keeps the rows the map's entries, still with no name twice |
| `Frequency.TableLength` | src/main.rs:89 | the table has exactly one row per key of the map |
| `Frequency.TablesAgree` | src/main.rs:89-90 | any two tables of one map hold the same rows, so only the order of tied counts is left open |
| `Frequency.CoveringSum` | src/main.rs:85-89 | rows that give each distinct key its number of occurrences add up to the number of keys counted |
| `Frequency.TableSum` | src/main.rs:85-89 | the counts of the table add up to the number of names counted |
| `Dashboard.ReviewerTableCounts` | src/main.rs:79-89 | every count is at least 1; each row's count is the number of reviewer entries whose display name has the row's key; every key some entry has gets a row; and the counts add up to the number of reviewer entries with a string display name over the pull requests whose `reviewers` is an array |
| `Dashboard.EntryNamesKeyed` | src/main.rs:81-84 | as many of a pull request's names have a given key as its entries whose display name has that key |
| `Dashboard.ReviewerNamesKeyed` | src/main.rs:79-84 | as many flattened names have a given key as there are such entries over all pull requests |
| `Dashboard.AggregateReviewers` | src/main.rs:74-90 | the result is the first display name with no second piece if there is one; otherwise it is a reviewer table, meaning the map's entries with no name twice, sorted so counts never increase |
| `Dashboard.TwoPullRequestsNames` | src/main.rs:78-81 | the two-pull-request example flattens to "Jane Doe", "Jane Doe", "John Q. Smith" |
| `Dashboard.TwoPullRequestsKeys` | src/main.rs:82-84 | its keys are "Jane Doe", "Jane Doe", "John Q." |
| `Dashboard.TwoPullRequestsFrequencies` | src/main.rs:85-86 | its frequency map is Jane Doe 2, "John Q." 1 |
| `Dashboard.TableOfTwo` | src/main.rs:89-90 | two keys with counts 2 and 1 have a single sorted table |
| `Dashboard.TwoPullRequestsTableExists` | src/main.rs:74-90 | [("Jane Doe", 2), ("John Q.", 1)] is a reviewer table of the example |
| `Dashboard.TwoPullRequestsTable` | src/main.rs:74-90 | the example's only table is [("Jane Doe", 2), ("John Q.", 1)] |
| `Dashboard.App.constructor` | src/main.rs:47-52 | an app starts with no repositories, no selection and an empty reviewer table |
| `Dashboard.App.SelectedRepository` | src/main.rs:71-72 | a repository is selected exactly when the selection exists and is a valid index into the items |
| `Dashboard.App.DownloadRepositories` | src/main.rs:55-68 | a failed fetch returns its error and changes nothing; a successful fetch replaces the items with the projected names and clears the selection; the reviewer table is untouched |
| `Dashboard.App.DownloadReviewers` | src/main.rs:70-98 | with no valid selection it returns `Ok` and changes nothing; a failed fetch or a panic on a single-token name leaves the table unchanged; otherwise the table is replaced by the reviewer table of the fetched pull requests: one row per key some entry has, each counting the entries whose display name has that key, and the counts add up to the number of named reviewer entries |

## Left out

- Terminal setup, drawing, layout and the key-event loop (src/main.rs:101-166): user interface and I/O.
- Reading the credentials from environment variables or arguments (src/main.rs:32-53): process configuration. The `storage` and `data` fields are not modelled.
- `request_repos` and `request_pr_data`, the HTTP calls with any pagination they do: their bodies are not part of this model, and they are network I/O. Their results are parameters.
- `StatefulList` (`with_items`, `selected`, `next`, `previous`, `unselect`) and the `utils` module are not part of this model. The model keeps its items and an optional index as `App` fields. It does not model how the key events move the index. Because `StatefulList::with_items` is not modelled, the model assumes that a list built by it starts with no selection, so replacing the repository list clears the selection.
- `src/bitbucket.rs`: it formats `user:password` and hands it to a Base64 encoder that is not part of this model. It also takes two arguments where `src/main.rs:45` passes four.
- The async runtime and the `event` module: concurrency.
- JSON numbers are modelled as integers only. The model never reads a number.
- Counters are unbounded naturals. A `u64` counter cannot overflow here, because a count never exceeds the number of fetched entries.
- The panic on a single-token display name aborts the process. The model returns it as the `Panicked` outcome, with `reviewers` unchanged.
- Frequency.SortByCount: its contract does not state that rows with equal counts keep their order (Rust's `sort_by` is stable). The rows come from a hash map in no fixed order, so tie order is unspecified either way.
