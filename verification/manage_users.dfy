/** The customer list of the administration area
    (src/pages/admin/manage-user.tsx): a case-insensitive name search over
    everything fetched. */
module ManageUsers {
  import opened Models
  import opened Text
  import Seqs

  /** The page state. `statusFilter` is listed among the effect's
      dependencies but no filter reads it. */
  datatype UsersPage = UsersPage(
    original: seq<UserState>,
    processing: seq<UserState>,
    searchText: string,
    statusFilter: Option<bool>)

  /** The name test: the lower-cased name contains the lower-cased text. */
  function NameMatches(searchText: string): UserState -> bool
  {
    (u: UserState) => Contains(ToLower(u.name), ToLower(searchText))
  }

  /** The effect on [searchText, statusFilter, originalData]. */
  function SearchUsers(original: seq<UserState>, searchText: string): (r: seq<UserState>)
    ensures searchText == "" ==> r == original
    ensures searchText != "" ==> forall i :: 0 <= i < |r| ==> Contains(ToLower(r[i].name), ToLower(searchText))
    ensures forall i :: 0 <= i < |original| && Contains(ToLower(original[i].name), ToLower(searchText)) ==> original[i] in r
    ensures Seqs.IsSubsequence(r, original)
  {
    Seqs.FilterIsSubsequence(original, NameMatches(searchText));
    if searchText == "" then original else Seqs.Filter(original, NameMatches(searchText))
  }

  predicate Synced(p: UsersPage) {
    p.processing == SearchUsers(p.original, p.searchText)
  }

  /** What the effect leaves once it has run: whatever the status filter. */
  function Settle(p: UsersPage): (r: UsersPage)
    ensures Synced(r)
    ensures r.original == p.original && r.searchText == p.searchText && r.statusFilter == p.statusFilter
  {
    p.(processing := SearchUsers(p.original, p.searchText))
  }

  /** handleClearFilters. */
  function ClearFilters(p: UsersPage): (r: UsersPage)
    ensures Synced(r)
    ensures r.processing == p.original && r.statusFilter.None?
  {
    UsersPage(p.original, p.original, "", None)
  }

  /** The status filter plays no part in what is shown. */
  lemma StatusFilterIgnored(p: UsersPage, f: Option<bool>)
    ensures Settle(p.(statusFilter := f)).processing == Settle(p).processing
  {
  }

  /** Typing more narrows the list: the results for `t + u` are a sublist
      of the results for `t`. */
  lemma SearchNarrows(original: seq<UserState>, t: string, u: string)
    ensures Seqs.IsSubsequence(SearchUsers(original, t + u), SearchUsers(original, t))
  {
    var r := SearchUsers(original, t + u);
    if t != "" && t + u != "" {
      forall x | x in r
        ensures NameMatches(t)(x)
      {
        ToLowerAppend(t, u);
        ContainsPrefix(ToLower(x.name), ToLower(t), ToLower(u));
      }
      Seqs.FilterIsGreatest(original, NameMatches(t), r);
    } else if t == "" && u == "" {
      assert t + u == "";
    }
  }

  /** The search ignores case: an upper-cased query finds the same users.
      This holds for the letters of Text's case table, where lower-casing
      undoes upper-casing. */
  lemma SearchIgnoresCase(original: seq<UserState>, t: string)
    ensures SearchUsers(original, ToUpper(t)) == SearchUsers(original, t)
  {
    LowerOfUpper(t);
    if t != "" {
      Seqs.FilterCongruent(original, NameMatches(ToUpper(t)), NameMatches(t));
    }
  }
}
