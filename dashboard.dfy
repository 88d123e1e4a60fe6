/** The dashboard's application state and its two download operations:
    replacing the repository list from fetched records, and rebuilding the
    reviewer table for the selected repository from its pull requests. The
    HTTP fetches are inputs. */
module Dashboard {
  import opened Wrappers
  import opened Json
  import opened Records
  import opened DisplayName
  import opened Frequency

  /** The error a fetch reports (transport, status or body), passed on by `?`. */
  datatype FetchError = FetchError(message: string)

  /** How a download ends: `Ok(())`, the fetch's error, or the panic raised on
      a display name that has no second piece. */
  datatype Status = Done | FetchFailed(error: FetchError) | Panicked(displayName: string)

  /** `rows` is the reviewer table of the pull requests `prs`: every reviewer
      display name has a key, and `rows` lists the keys' frequencies, with no
      key twice, sorted so that counts never increase. */
  ghost predicate IsReviewerTable(rows: seq<Row>, prs: seq<Value>)
  {
    var keys := NormalizeAll(ReviewerNames(prs));
    && keys.Success?
    && IsTable(rows, Frequencies(keys.value))
    && SortedByCount(rows)
  }

  /** In a table of the keys' frequencies, sorted or not, every count is at
      least 1, and the counts add up to the number of reviewer entries with a
      string display name over all pull requests whose `reviewers` field is an
      array. */
  lemma ReviewerTableCounts(rows: seq<Row>, prs: seq<Value>, keys: seq<string>)
    requires NormalizeAll(ReviewerNames(prs)) == Success(keys)
    requires IsTable(rows, Frequencies(keys))
    ensures forall i :: 0 <= i < |rows| ==> rows[i].1 >= 1
    ensures SumCounts(rows) == NamedReviewerEntries(prs)
    ensures forall i :: 0 <= i < |rows| ==> rows[i].1 == KeyedReviewerEntries(prs, rows[i].0)
    ensures forall k :: KeyedReviewerEntries(prs, k) > 0 ==>
      exists i :: 0 <= i < |rows| && rows[i].0 == k
  {
    TableSum(rows, keys);
    ReviewerNamesLength(prs);
    var freq := Frequencies(keys);
    forall i | 0 <= i < |rows|
      ensures rows[i].1 == KeyedReviewerEntries(prs, rows[i].0)
    {
      OccurrencesOfKeys(ReviewerNames(prs), keys, rows[i].0);
      ReviewerNamesKeyed(prs, rows[i].0);
    }
    forall k | KeyedReviewerEntries(prs, k) > 0
      ensures exists i :: 0 <= i < |rows| && rows[i].0 == k
    {
      OccurrencesOfKeys(ReviewerNames(prs), keys, k);
      ReviewerNamesKeyed(prs, k);
      assert k in freq;
    }
  }

  /** Whether a reviewer entry's display name has the key `k`. */
  predicate KeyedBy(entry: Value, k: string)
  {
    var name := ReviewerDisplayName(entry);
    name.Some? && Normalize(name.value) == Some(k)
  }

  /** The number of one pull request's reviewer entries whose display name
      has the key `k`. */
  function KeyedEntries(entries: seq<Value>, k: string): nat
  {
    if entries == [] then 0 else (if KeyedBy(entries[0], k) then 1 else 0) + KeyedEntries(entries[1..], k)
  }

  /** The same count over every pull request whose `reviewers` is an array. */
  function KeyedReviewerEntries(prs: seq<Value>, k: string): nat
  {
    if prs == [] then 0 else KeyedEntries(ReviewerEntries(prs[0]), k) + KeyedReviewerEntries(prs[1..], k)
  }

  /** As many of a pull request's names have the key `k` as its entries do. */
  lemma {:induction false} EntryNamesKeyed(entries: seq<Value>, k: string)
    ensures NamesKeyed(EntryNames(entries), k) == KeyedEntries(entries, k)
  {
    if entries != [] {
      EntryNamesKeyed(entries[1..], k);
      var rest := EntryNames(entries[1..]);
      match ReviewerDisplayName(entries[0])
      case Some(n) =>
        assert EntryNames(entries) == [n] + rest;
        assert ([n] + rest)[1..] == rest;
      case None =>
    }
  }

  /** As many flattened names have the key `k` as there are entries keyed by it. */
  lemma {:induction false} ReviewerNamesKeyed(prs: seq<Value>, k: string)
    ensures NamesKeyed(ReviewerNames(prs), k) == KeyedReviewerEntries(prs, k)
  {
    if prs != [] {
      ReviewerNamesKeyed(prs[1..], k);
      EntryNamesKeyed(ReviewerEntries(prs[0]), k);
      NamesKeyedAppend(EntryNames(ReviewerEntries(prs[0])), ReviewerNames(prs[1..]), k);
    }
  }

  /** The body of the selected branch of `download_reviwers`: flatten the
      reviewer names, count their keys, list the counts and sort them by
      descending count. The result is the panic's display name if a name has
      no second piece. */
  method AggregateReviewers(prs: seq<Value>) returns (r: Result<seq<Row>, string>)
    ensures NormalizeAll(ReviewerNames(prs)).Failure? ==>
      r == Failure(NormalizeAll(ReviewerNames(prs)).error)
    ensures NormalizeAll(ReviewerNames(prs)).Success? ==>
      r.Success? && IsReviewerTable(r.value, prs)
  {
    var counted := Tally(ReviewerNames(prs));
    match counted {
      case Failure(name) =>
        return Failure(name);
      case Success(freq) =>
        var rows := Entries(freq);
        var table := new Row[|rows|](i requires 0 <= i < |rows| => rows[i]);
        assert table[..] == rows;
        SortByCount(table);
        TablePermutation(rows, table[..], freq);
        return Success(table[..]);
    }
  }

  /** A reviewer entry `{"user": {"displayName": name}}`. */
  function Reviewer(displayName: string): Value
  {
    Object(map["user" := Object(map["displayName" := String(displayName)])])
  }

  /** Two pull requests, reviewed by Jane Doe, and by Jane Doe and
      John Q. Smith. */
  function TwoPullRequests(): seq<Value>
  {
    [ Object(map["reviewers" := Array([Reviewer("Jane Doe")])]),
      Object(map["reviewers" := Array([Reviewer("Jane Doe"), Reviewer("John Q. Smith")])]) ]
  }

  lemma TwoPullRequestsNames()
    ensures ReviewerNames(TwoPullRequests()) == ["Jane Doe", "Jane Doe", "John Q. Smith"]
  {
  }

  lemma TwoPullRequestsKeys()
    ensures NormalizeAll(ReviewerNames(TwoPullRequests())) == Success(["Jane Doe", "Jane Doe", "John Q."])
  {
    TwoPullRequestsNames();
    NormalizeTwoTokens();
    NormalizeMiddleName();
    NormalizeThree("Jane Doe", "Jane Doe", "John Q. Smith", "Jane Doe", "Jane Doe", "John Q.");
  }

  lemma NormalizeThree(a: string, b: string, c: string, ka: string, kb: string, kc: string)
    requires Normalize(a) == Some(ka) && Normalize(b) == Some(kb) && Normalize(c) == Some(kc)
    ensures NormalizeAll([a, b, c]) == Success([ka, kb, kc])
  {
    NormalizeAllKeys([a, b, c], [ka, kb, kc]);
  }

  lemma TwoPullRequestsFrequencies()
    ensures Frequencies(["Jane Doe", "Jane Doe", "John Q."]) == map["Jane Doe" := 2, "John Q." := 1]
  {
    var keys := ["Jane Doe", "Jane Doe", "John Q."];
    assert keys[..2][..1] == keys[..1];
    assert keys[..|keys| - 1] == keys[..2];
    assert Occurrences(keys[..1], "John Q.") == 0;
    assert Occurrences(keys[..2], "John Q.") == 0;
    assert Occurrences(keys[..1], "Jane Doe") == 1;
    assert Occurrences(keys[..2], "Jane Doe") == 2;
  }

  /** The only table for the two pull requests: Jane Doe twice, then
      "John Q." once (the middle initial is kept, the surname dropped). */
  lemma TwoPullRequestsTable(rows: seq<Row>)
    requires IsReviewerTable(rows, TwoPullRequests())
    ensures rows == [("Jane Doe", 2), ("John Q.", 1)]
  {
    TwoPullRequestsKeys();
    TwoPullRequestsFrequencies();
    TableOfTwo(rows, "Jane Doe", "John Q.");
  }

  /** The expected table is a reviewer table of the two pull requests. */
  lemma TwoPullRequestsTableExists()
    ensures IsReviewerTable([("Jane Doe", 2), ("John Q.", 1)], TwoPullRequests())
  {
    TwoPullRequestsKeys();
    TwoPullRequestsFrequencies();
    TwoRowTable("Jane Doe", "John Q.");
  }

  lemma TwoRowTable(a: string, b: string)
    requires a != b
    ensures IsTable([(a, 2), (b, 1)], map[a := 2, b := 1])
    ensures SortedByCount([(a, 2), (b, 1)])
  {
    var rows: seq<Row> := [(a, 2), (b, 1)];
    assert rows[0].0 == a && rows[1].0 == b;
  }

  /** Two keys with counts 2 and 1 have one sorted table. */
  lemma TableOfTwo(rows: seq<Row>, a: string, b: string)
    requires a != b
    requires IsTable(rows, map[a := 2, b := 1]) && SortedByCount(rows)
    ensures rows == [(a, 2), (b, 1)]
  {
    var freq := map[a := 2, b := 1];
    assert a in freq && b in freq;
    var i :| 0 <= i < |rows| && rows[i].0 == a;
    var j :| 0 <= j < |rows| && rows[j].0 == b;
    TableLength(rows, freq);
    assert freq.Keys == {a, b};
    assert i == 0 && j == 1;
  }

  class App {
    /** The items of the selectable repository list. */
    var repositories: seq<string>
    /** The list's highlighted index, if any; it is not kept in range. */
    var selected: Option<nat>
    /** The reviewer table drawn as a bar chart. */
    var reviewers: seq<Row>

    constructor ()
      ensures repositories == [] && selected == None && reviewers == []
    {
      repositories := [];
      selected := None;
      reviewers := [];
    }

    /** The repository under the highlight, when the highlight is a valid
        index (`items.get(i)`). */
    function SelectedRepository(): (name: Option<string>)
      reads this
      ensures name.Some? <==> selected.Some? && selected.value < |repositories|
      ensures name.Some? ==> name.value == repositories[selected.value]
    {
      match selected
      case Some(i) => if i < |repositories| then Some(repositories[i]) else None
      case None => None
    }

    /** `download_repositories`: on a failed fetch nothing changes and the
        error is returned; otherwise the list is replaced by the names of the
        fetched records, with no highlight. */
    method DownloadRepositories(fetched: Result<seq<Value>, FetchError>) returns (status: Status)
      modifies this
      ensures reviewers == old(reviewers)
      ensures fetched.Failure? ==>
        && status == FetchFailed(fetched.error)
        && repositories == old(repositories)
        && selected == old(selected)
      ensures fetched.Success? ==>
        && status == Done
        && repositories == RepositoryNames(fetched.value)
        && selected == None
    {
      match fetched {
        case Failure(e) =>
          return FetchFailed(e);
        case Success(records) =>
          repositories := RepositoryNames(records);
          selected := None;
          return Done;
      }
    }

    /** `download_reviwers`: without a valid highlight nothing happens. With
        one, the pull requests of the highlighted repository are fetched; a
        failed fetch or a panicking display name leaves the table as it was,
        and otherwise the table is replaced, not merged, by the new one. */
    method DownloadReviewers(requestPrData: string -> Result<seq<Value>, FetchError>)
      returns (status: Status)
      modifies this
      ensures repositories == old(repositories) && selected == old(selected)
      ensures SelectedRepository().None? ==> status == Done && reviewers == old(reviewers)
      ensures SelectedRepository().Some? ==>
        match requestPrData(SelectedRepository().value)
        case Failure(e) => status == FetchFailed(e) && reviewers == old(reviewers)
        case Success(prs) =>
          match NormalizeAll(ReviewerNames(prs))
          case Failure(name) => status == Panicked(name) && reviewers == old(reviewers)
          case Success(_) =>
            && status == Done
            && IsReviewerTable(reviewers, prs)
            && SumCounts(reviewers) == NamedReviewerEntries(prs)
            && (forall i :: 0 <= i < |reviewers| ==>
                  reviewers[i].1 == KeyedReviewerEntries(prs, reviewers[i].0))
            && (forall k :: KeyedReviewerEntries(prs, k) > 0 ==>
                  exists i :: 0 <= i < |reviewers| && reviewers[i].0 == k)
    {
      var repo := SelectedRepository();
      if repo.None? {
        return Done;
      }
      var fetched := requestPrData(repo.value);
      match fetched {
        case Failure(e) =>
          return FetchFailed(e);
        case Success(prs) =>
          var table := AggregateReviewers(prs);
          match table {
            case Failure(name) =>
              return Panicked(name);
            case Success(rows) =>
              ReviewerTableCounts(rows, prs, NormalizeAll(ReviewerNames(prs)).value);
              reviewers := rows;
              return Done;
          }
      }
    }
  }
}
