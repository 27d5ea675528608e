/** utils/global.tsx: the management-area menu table and the choice of the
    text toastError shows. */
module Global {
  import opened Models
  import opened Text
  import Seqs
  import Helpers

  /** sliderMenu (the commented-out dashboard entry is not part of it). */
  const SLIDER_MENU: seq<MenuEntry> := [
    MenuEntry("admin/user", "User", [ROLE_USER, ROLE_ADMIN]),
    MenuEntry("admin/order", "Order", [ROLE_ADMIN]),
    MenuEntry("admin/item", "Item", [ROLE_ADMIN])
  ]

  /** The menu each role sees: the administrator gets all three entries in
      order, a customer only the user page, any other role (or none) nothing. */
  lemma SliderMenuByRole(roleId: Option<int>)
    ensures roleId == Some(ROLE_ADMIN) ==> Helpers.FilterMenuByRole(SLIDER_MENU, roleId) == SLIDER_MENU
    ensures roleId == Some(ROLE_USER) ==> Helpers.FilterMenuByRole(SLIDER_MENU, roleId) == [SLIDER_MENU[0]]
    ensures roleId != Some(ROLE_ADMIN) && roleId != Some(ROLE_USER) ==>
      Helpers.FilterMenuByRole(SLIDER_MENU, roleId) == []
  {
    if roleId.Some? {
      var p := Helpers.HasRole(roleId.value);
      var m := SLIDER_MENU;
      assert m[1..][1..][1..] == [];
      assert Seqs.Filter(m, p) == (if p(m[0]) then [m[0]] else []) + Seqs.Filter(m[1..], p);
    }
  }

  /** Every entry's roles are known roles, and the keys are distinct. */
  lemma SliderMenuWellFormed()
    ensures forall i :: 0 <= i < |SLIDER_MENU| ==>
      forall r :: r in SLIDER_MENU[i].roles ==> r == ROLE_ADMIN || r == ROLE_USER
    ensures forall i, j :: 0 <= i < j < |SLIDER_MENU| ==> SLIDER_MENU[i].key != SLIDER_MENU[j].key
  {
  }

  /** `error?.response?.data?.message`: absent, one message, or an array. */
  datatype ServerMessage = Absent | Single(text: string) | Many(lines: seq<string>)

  /** What toastError is handed: an error object (a server message and its
      own `message`, "" when it has none), or a bare string. */
  datatype ErrorValue = Thrown(server: ServerMessage, message: string) | PlainString(text: string)

  const DEFAULT_ERROR: string := "An error occurred"

  /** The first non-empty candidate (JavaScript's `a || b || c`), else the
      fallback. */
  function FirstNonEmpty(candidates: seq<string>, fallback: string): (r: string)
    ensures r == fallback || r in candidates
    ensures r != "" <==> fallback != "" || exists i :: 0 <= i < |candidates| && candidates[i] != ""
    ensures forall i :: 0 <= i < |candidates| && (forall j :: 0 <= j < i ==> candidates[j] == "") && candidates[i] != "" ==> r == candidates[i]
  {
    if |candidates| == 0 then fallback
    else if candidates[0] != "" then candidates[0]
    else
      var r := FirstNonEmpty(candidates[1..], fallback);
      assert forall i :: 1 <= i < |candidates| ==> candidates[i] == candidates[1..][i - 1];
      r
  }

  /** The server message as a truthy-or-not string. */
  function ServerText(e: ErrorValue): string
  {
    if e.Thrown? && e.server.Single? then e.server.text else ""
  }

  /** toastError as written. An array of server messages is shown one per
      line; otherwise the server message, the error's own message, or the
      default, whichever comes first non-empty. A bare string has neither
      property, so it shows the default. */
  function ToastError(e: ErrorValue): (shown: string)
    ensures (e.Thrown? && e.server.Many? && |e.server.lines| > 0 &&
             forall i :: 0 <= i < |e.server.lines| ==> '\n' !in e.server.lines[i])
      ==> Split(shown, '\n') == e.server.lines
    ensures e.Thrown? && e.server == Many([]) ==> shown == ""
    ensures !(e.Thrown? && e.server.Many?) ==> shown != ""
    ensures e.PlainString? ==> shown == DEFAULT_ERROR
  {
    match e
    case Thrown(Many(lines), _) =>
      if |lines| > 0 && forall i :: 0 <= i < |lines| ==> '\n' !in lines[i] then
        SplitJoin(lines, '\n');
        Join(lines, "\n")
      else Join(lines, "\n")
    case Thrown(_, message) => FirstNonEmpty([ServerText(e), message], DEFAULT_ERROR)
    case PlainString(_) => FirstNonEmpty([ServerText(e), ""], DEFAULT_ERROR)
  }

  /** The non-array branch picks the server message first, then the error's
      own message, then the default. */
  lemma ToastErrorPriority(server: ServerMessage, message: string)
    requires !server.Many?
    ensures server.Single? && server.text != "" ==> ToastError(Thrown(server, message)) == server.text
    ensures (server.Absent? || server.text == "") && message != "" ==> ToastError(Thrown(server, message)) == message
    ensures (server.Absent? || server.text == "") && message == "" ==> ToastError(Thrown(server, message)) == DEFAULT_ERROR
  {
    var candidates := [ServerText(Thrown(server, message)), message];
    assert candidates[1..] == [message];
    if candidates[0] == "" {
      assert FirstNonEmpty(candidates, DEFAULT_ERROR) == FirstNonEmpty([message], DEFAULT_ERROR);
      assert [message][1..] == [];
    }
  }

  /** toastError as its callers use it: a bare string is the text to show. */
  function ToastErrorIntended(e: ErrorValue): (shown: string)
    ensures e.PlainString? && e.text != "" ==> shown == e.text
    ensures e.Thrown? ==> shown == ToastError(e)
  {
    match e
    case PlainString(text) => FirstNonEmpty([text], DEFAULT_ERROR)
    case Thrown(_, _) => ToastError(e)
  }

  /** The discrepancy: the notification handlers pass their message as a bare
      string, and the written toastError replaces it by the default. */
  lemma ToastErrorDropsPlainString()
    ensures ToastError(PlainString("Failed to mark notification as read")) == DEFAULT_ERROR
    ensures ToastErrorIntended(PlainString("Failed to mark notification as read")) == "Failed to mark notification as read"
    ensures ToastError(PlainString("Failed to mark notification as read")) != ToastErrorIntended(PlainString("Failed to mark notification as read"))
  {
  }

  /** A backend call as a try/catch handler sees it: it answered (with the
      part of the answer the handler uses), or it threw and the catch block
      hands the error to toastError. */
  datatype Call<T> = Answered(value: T) | Threw(error: ErrorValue)

  /** What such a handler leaves behind: the page state, and the error toast
      when one was shown. */
  datatype Handled<S> = Handled(state: S, toast: Option<string>)
}
