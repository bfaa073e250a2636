/** get_account_info in kiwoom.py and kiwoom_login.py: the broker's
    "ACCNO" login information is a ';'-terminated list of account numbers,
    read as account_list.strip().split(';')[:-1]. */
module Accounts {
  import opened Text

  /** The account numbers offered in the account drop-down. */
  function AccountList(raw: string): seq<string>
  {
    var parts := Split(Strip(raw), ';');
    parts[..|parts| - 1]
  }

  /** Each account followed by ';', concatenated: the broker's format. */
  function Terminated(accounts: seq<string>): string
  {
    if accounts == [] then "" else accounts[0] + ";" + Terminated(accounts[1..])
  }

  lemma {:induction false} JoinTerminated(xs: seq<string>, y: string)
    ensures Join(xs + [y], ';') == Terminated(xs) + y
  {
    if xs != [] {
      assert (xs + [y])[1..] == xs[1..] + [y];
      JoinTerminated(xs[1..], y);
    } else {
      assert xs + [y] == [y];
    }
  }

  /** The accounts, each re-terminated, followed by the dropped last piece,
      give back the stripped text: nothing is lost but the text after the
      last ';'. No account contains ';', and there are as many accounts as
      separators, so an input without ';' (the empty one included) yields
      no account. */
  lemma AccountListRoundTrip(raw: string)
    ensures var parts := Split(Strip(raw), ';');
            Terminated(AccountList(raw)) + parts[|parts| - 1] == Strip(raw)
    ensures forall a :: a in AccountList(raw) ==> ';' !in a
    ensures |AccountList(raw)| == Count(Strip(raw), ';')
    ensures AccountList(raw) == [] <==> ';' !in Strip(raw)
  {
    var t := Strip(raw);
    var parts := Split(t, ';');
    JoinSplit(t, ';');
    SplitPieces(t, ';');
    CountZero(t, ';');
    assert parts == parts[..|parts| - 1] + [parts[|parts| - 1]];
    JoinTerminated(parts[..|parts| - 1], parts[|parts| - 1]);
  }

  /** For the broker's usual ';'-terminated text, the accounts re-terminated
      are exactly the stripped text. */
  lemma AccountListTerminated(raw: string)
    requires |Strip(raw)| > 0 && Strip(raw)[|Strip(raw)| - 1] == ';'
    ensures Terminated(AccountList(raw)) == Strip(raw)
  {
    var t := Strip(raw);
    AccountListRoundTrip(raw);
    SplitLastAfterSeparator(t, ';');
  }

  /** After a trailing separator the last piece of a split is empty. */
  lemma {:induction false} SplitLastAfterSeparator(s: string, sep: char)
    requires |s| > 0 && s[|s| - 1] == sep
    ensures Split(s, sep)[|Split(s, sep)| - 1] == ""
  {
    if |s| > 1 {
      SplitLastAfterSeparator(s[1..], sep);
    }
  }
}
