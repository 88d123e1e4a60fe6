/** The pure iterator pipelines of the dashboard: projecting fetched
    repository records onto their names, and pull-request records onto the
    display names of their reviewers. A record of the wrong shape is skipped,
    never an error. */
module Records {
  import opened Wrappers
  import opened Json

  /** `r["name"].as_str()` for one repository record. */
  function RepositoryName(record: Value): (name: Option<string>)
    ensures name.Some? <==>
      record.Object? && "name" in record.fields && record.fields["name"].String?
    ensures name.Some? ==> name.value == record.fields["name"].str
  {
    AsStr(Get(record, "name"))
  }

  /** `filter_map(|r| r["name"].as_str())` over the fetched repository records,
      in their order. */
  function RepositoryNames(records: seq<Value>): (names: seq<string>)
    ensures |names| <= |records|
    ensures forall n :: n in names ==> exists r :: r in records && RepositoryName(r) == Some(n)
  {
    if records == [] then []
    else
      var rest := RepositoryNames(records[1..]);
      match RepositoryName(records[0])
      case Some(n) => [n] + rest
      case None => rest
  }

  /** Projection commutes with concatenation: the names of two runs of records
      are the names of the first run followed by those of the second. */
  lemma {:induction false} RepositoryNamesAppend(a: seq<Value>, b: seq<Value>)
    ensures RepositoryNames(a + b) == RepositoryNames(a) + RepositoryNames(b)
  {
    if a == [] {
      assert a + b == b;
    } else {
      assert (a + b)[0] == a[0];
      assert (a + b)[1..] == a[1..] + b;
      RepositoryNamesAppend(a[1..], b);
    }
  }

  /** Every record whose `name` is a string contributes that name. */
  lemma {:induction false} RepositoryNamesComplete(records: seq<Value>, i: nat)
    requires i < |records|
    requires RepositoryName(records[i]).Some?
    ensures RepositoryName(records[i]).value in RepositoryNames(records)
  {
    if i > 0 {
      RepositoryNamesComplete(records[1..], i - 1);
    }
  }

  /** Nothing is dropped exactly when every record has a string `name`. */
  lemma {:induction false} RepositoryNamesKeepsAll(records: seq<Value>)
    ensures |RepositoryNames(records)| == |records| <==>
            forall i :: 0 <= i < |records| ==> RepositoryName(records[i]).Some?
  {
    if records != [] {
      RepositoryNamesKeepsAll(records[1..]);
      if RepositoryName(records[0]).Some? {
        forall i | 0 < i < |records|
          ensures RepositoryName(records[i]) == RepositoryName(records[1..][i - 1])
        {
        }
      }
    }
  }

  /** The number of records whose `name` is the string `n`. */
  function RecordsNamed(records: seq<Value>, n: string): nat
  {
    if records == [] then 0
    else (if RepositoryName(records[0]) == Some(n) then 1 else 0) + RecordsNamed(records[1..], n)
  }

  /** Duplicates are kept: a name occurs in the list as often as records carry it. */
  lemma {:induction false} RepositoryNamesMultiplicity(records: seq<Value>, n: string)
    ensures multiset(RepositoryNames(records))[n] == RecordsNamed(records, n)
  {
    if records != [] {
      RepositoryNamesMultiplicity(records[1..], n);
    }
  }

  /** `pr["reviewers"].as_array()`, with a missing or non-array field giving no entries. */
  function ReviewerEntries(pr: Value): (entries: seq<Value>)
    ensures pr.Object? && "reviewers" in pr.fields && pr.fields["reviewers"].Array? ==>
      entries == pr.fields["reviewers"].elems
    ensures !(pr.Object? && "reviewers" in pr.fields && pr.fields["reviewers"].Array?) ==>
      entries == []
  {
    match AsArray(Get(pr, "reviewers"))
    case Some(entries) => entries
    case None => []
  }

  /** `entry["user"]["displayName"].as_str()` for one reviewer entry. */
  function ReviewerDisplayName(entry: Value): (name: Option<string>)
    ensures name.Some? <==>
      && entry.Object? && "user" in entry.fields
      && entry.fields["user"].Object? && "displayName" in entry.fields["user"].fields
      && entry.fields["user"].fields["displayName"].String?
    ensures name.Some? ==> name.value == entry.fields["user"].fields["displayName"].str
  {
    AsStr(Get(Get(entry, "user"), "displayName"))
  }

  /** The display names of one pull request's reviewer entries, in order. */
  function EntryNames(entries: seq<Value>): (names: seq<string>)
    ensures |names| <= |entries|
    ensures forall n :: n in names ==> exists e :: e in entries && ReviewerDisplayName(e) == Some(n)
  {
    if entries == [] then []
    else
      var rest := EntryNames(entries[1..]);
      match ReviewerDisplayName(entries[0])
      case Some(n) => [n] + rest
      case None => rest
  }

  /** The reviewer display names of all pull requests, flattened in order:
      `filter_map(as_array).flatten().filter_map(displayName.as_str())`. */
  function ReviewerNames(prs: seq<Value>): (names: seq<string>)
    ensures forall n :: n in names ==>
      exists pr, e :: pr in prs && e in ReviewerEntries(pr) && ReviewerDisplayName(e) == Some(n)
  {
    if prs == [] then []
    else EntryNames(ReviewerEntries(prs[0])) + ReviewerNames(prs[1..])
  }

  /** Every reviewer entry with a string display name contributes that name. */
  lemma {:induction false} ReviewerNamesComplete(prs: seq<Value>, i: nat, j: nat)
    requires i < |prs| && j < |ReviewerEntries(prs[i])|
    requires ReviewerDisplayName(ReviewerEntries(prs[i])[j]).Some?
    ensures ReviewerDisplayName(ReviewerEntries(prs[i])[j]).value in ReviewerNames(prs)
  {
    if i > 0 {
      ReviewerNamesComplete(prs[1..], i - 1, j);
    } else {
      EntryNamesComplete(ReviewerEntries(prs[0]), j);
    }
  }

  lemma {:induction false} EntryNamesComplete(entries: seq<Value>, j: nat)
    requires j < |entries| && ReviewerDisplayName(entries[j]).Some?
    ensures ReviewerDisplayName(entries[j]).value in EntryNames(entries)
  {
    if j > 0 {
      EntryNamesComplete(entries[1..], j - 1);
    }
  }

  /** Pull requests fetched in two runs give the names of the first run
      followed by those of the second. */
  lemma {:induction false} ReviewerNamesAppend(a: seq<Value>, b: seq<Value>)
    ensures ReviewerNames(a + b) == ReviewerNames(a) + ReviewerNames(b)
  {
    if a == [] {
      assert a + b == b;
    } else {
      assert (a + b)[0] == a[0];
      assert (a + b)[1..] == a[1..] + b;
      ReviewerNamesAppend(a[1..], b);
    }
  }

  /** The number of reviewer entries that have a string `user.displayName`. */
  function NamedEntries(entries: seq<Value>): nat
  {
    if entries == [] then 0
    else (if ReviewerDisplayName(entries[0]).Some? then 1 else 0) + NamedEntries(entries[1..])
  }

  /** The same count over every pull request; one without a `reviewers`
      array adds nothing. */
  function NamedReviewerEntries(prs: seq<Value>): nat
  {
    if prs == [] then 0 else NamedEntries(ReviewerEntries(prs[0])) + NamedReviewerEntries(prs[1..])
  }

  /** One display name per reviewer entry that has one. */
  lemma {:induction false} ReviewerNamesLength(prs: seq<Value>)
    ensures |ReviewerNames(prs)| == NamedReviewerEntries(prs)
  {
    if prs != [] {
      EntryNamesLength(ReviewerEntries(prs[0]));
      ReviewerNamesLength(prs[1..]);
    }
  }

  lemma {:induction false} EntryNamesLength(entries: seq<Value>)
    ensures |EntryNames(entries)| == NamedEntries(entries)
  {
    if entries != [] {
      EntryNamesLength(entries[1..]);
    }
  }

  /** The number of reviewer entries whose `user.displayName` is the string `n`. */
  function EntriesCalled(entries: seq<Value>, n: string): nat
  {
    if entries == [] then 0
    else (if ReviewerDisplayName(entries[0]) == Some(n) then 1 else 0) + EntriesCalled(entries[1..], n)
  }

  /** The same count over every pull request whose `reviewers` is an array. */
  function ReviewerEntriesCalled(prs: seq<Value>, n: string): nat
  {
    if prs == [] then 0 else EntriesCalled(ReviewerEntries(prs[0]), n) + ReviewerEntriesCalled(prs[1..], n)
  }

  /** A display name occurs among one pull request's names as often as its
      entries carry it. */
  lemma {:induction false} EntryNamesMultiplicity(entries: seq<Value>, n: string)
    ensures multiset(EntryNames(entries))[n] == EntriesCalled(entries, n)
  {
    if entries != [] {
      EntryNamesMultiplicity(entries[1..], n);
    }
  }

  /** A display name occurs among the flattened names as often as reviewer
      entries carry it, over all pull requests. */
  lemma {:induction false} ReviewerNamesMultiplicity(prs: seq<Value>, n: string)
    ensures multiset(ReviewerNames(prs))[n] == ReviewerEntriesCalled(prs, n)
  {
    if prs != [] {
      EntryNamesMultiplicity(ReviewerEntries(prs[0]), n);
      ReviewerNamesMultiplicity(prs[1..], n);
    }
  }
}
