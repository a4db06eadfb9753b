/** The "add domains" dialog of the dashboard
    (frontend/src/components/AddDomainModal.tsx): the text typed in its text
    area becomes a list of domain names, and submitting the form steps the
    component through sending the list to the bulk-add endpoint and reacting to
    the reply. The request itself is split in two: `Submit` sends it and
    `Resolve` receives what came back. */
module AddDomainModal {
  import opened Wrappers
  import opened Text
  import DomainStore

  // ---------------------------------------------------------------------
  // Parsing the text area
  // ---------------------------------------------------------------------

  /** `domainsText.split('\n').map(d => d.trim()).filter(d => d)` */
  function ParseDomains(text: string): seq<string> {
    NonBlankLines(text)
  }

  /** No entry is empty or has whitespace at either end. */
  lemma ParsedShape(text: string)
    ensures forall k :: 0 <= k < |ParseDomains(text)| ==>
      ParseDomains(text)[k] != "" && Trim(ParseDomains(text)[k]) == ParseDomains(text)[k]
  {
    TrimmedNonBlankShape(Split(text, '\n'));
  }

  /** The entries are exactly the non-blank lines, trimmed. */
  lemma ParsedMembers(text: string, x: string)
    ensures x in ParseDomains(text) <==>
      x != "" && exists i :: 0 <= i < |Split(text, '\n')| && Trim(Split(text, '\n')[i]) == x
  {
    assert ParseDomains(text) == TrimmedNonBlank(Split(text, '\n'));
    TrimmedNonBlankMembers(Split(text, '\n'), x);
  }

  /** Parsing goes line by line, so the entries keep the order of the lines:
      the text before a line break gives the first entries, the text after it
      the rest. */
  lemma ParseInOrder(before: string, after: string)
    ensures ParseDomains(before + "\n" + after) == ParseDomains(before) + ParseDomains(after)
  {
    SplitConcat(before, '\n', after);
    TrimmedNonBlankConcat(Split(before, '\n'), Split(after, '\n'));
  }

  /** One name per line gives the names back. */
  lemma ParseJoined(names: seq<string>)
    requires forall k :: 0 <= k < |names| ==> names[k] != "" && Trim(names[k]) == names[k] && '\n' !in names[k]
    ensures ParseDomains(Join(names, "\n")) == names
  {
    if names == [] {
      NonBlankLinesEmpty();
    } else {
      SplitJoin(names, '\n');
      TrimmedNonBlankKeepsAll(names);
    }
  }

  /** Every name the server adds from a submitted list is one of the parsed
      names as typed: the server's own stripping changes nothing. */
  lemma ServerAddsParsedNames(current: seq<string>, text: string, d: string)
    ensures d in DomainStore.ValidNewSet(current, ParseDomains(text)) ==> d in ParseDomains(text)
  {
    TrimmedNonBlankShape(Split(text, '\n'));
  }

  // ---------------------------------------------------------------------
  // Submitting
  // ---------------------------------------------------------------------

  const EmptyInputMessage := "Veuillez entrer au moins un nom de domaine."
  const LoadingMessage := "Ajout des domaines à la liste..."
  const FallbackError := "Une erreur est survenue."
  const UnknownError := "Une erreur inconnue est survenue."

  /** What the request settled with: an HTTP reply read as JSON, with its
      `ok` flag, `message` and `detail` fields, or something thrown on the way,
      an `Error` with its message or another value. */
  datatype Outcome =
    | Answered(ok: bool, message: string, detail: Option<string>)
    | Threw(errorMessage: Option<string>)

  predicate Succeeded(outcome: Outcome) {
    outcome.Answered? && outcome.ok
  }

  /** The notifications the dialog raises, in order. */
  datatype Toast =
    | ErrorToast(text: string)
    | LoadingToast(text: string)
    | SuccessToast(text: string)
    | Dismissed

  /** The text of the error notification for a request that did not succeed:
      the server's `detail` when it gave a non-empty one, a fixed fallback
      otherwise, or the message of what was thrown. */
  function ErrorText(outcome: Outcome): (text: string)
    requires !Succeeded(outcome)
    ensures outcome.Answered? ==> text != ""
    ensures outcome.Answered? ==>
      (text == FallbackError <==> outcome.detail.None? || outcome.detail.value == "" || outcome.detail.value == FallbackError)
    ensures outcome.Answered? && outcome.detail.Some? && outcome.detail.value != "" ==> text == outcome.detail.value
    ensures outcome.Threw? && outcome.errorMessage.Some? ==> text == outcome.errorMessage.value
    ensures outcome.Threw? && outcome.errorMessage.None? ==> text == UnknownError
  {
    match outcome
    case Answered(_, _, detail) =>
      if detail.Some? && detail.value != "" then detail.value else FallbackError
    case Threw(message) =>
      message.GetOr(UnknownError)
  }

  /** The component's state and what it has handed to the outside world: the
      requests sent, the calls of `onDomainsAdded` and `onClose`, and the
      notifications. */
  class Modal {
    var domainsText: string
    var isLoading: bool
    /** The list sent by the request in flight, if any. */
    var pending: Option<seq<string>>
    var requests: seq<seq<string>>
    var added: seq<seq<string>>
    var closeCount: nat
    var toasts: seq<Toast>

    /** A request is in flight exactly while the dialog shows it is loading,
        and only a non-empty list is ever sent. */
    predicate Valid()
      reads this
    {
      (isLoading <==> pending.Some?)
      && (pending.Some? ==> pending.value != [] && requests != [] && requests[|requests| - 1] == pending.value)
    }

    constructor()
      ensures Valid()
      ensures domainsText == "" && !isLoading && pending.None?
      ensures requests == [] && added == [] && closeCount == 0 && toasts == []
    {
      domainsText := "";
      isLoading := false;
      pending := None;
      requests := [];
      added := [];
      closeCount := 0;
      toasts := [];
    }

    /** Typing in the text area, which is disabled while loading. */
    method Edit(text: string)
      requires Valid() && !isLoading
      modifies this
      ensures Valid()
      ensures domainsText == text
      ensures isLoading == old(isLoading) && pending == old(pending) && requests == old(requests)
      ensures added == old(added) && closeCount == old(closeCount) && toasts == old(toasts)
    {
      domainsText := text;
    }

    /** `handleSubmit` up to the request; the submit button is disabled while
        loading. Nothing to send gives an error notification and changes
        nothing else; otherwise the parsed list is sent and the dialog loads. */
    method Submit()
      requires Valid() && !isLoading
      modifies this
      ensures Valid()
      ensures domainsText == old(domainsText) && added == old(added) && closeCount == old(closeCount)
      ensures ParseDomains(domainsText) == [] ==>
        !isLoading && pending.None? && requests == old(requests) && toasts == old(toasts) + [ErrorToast(EmptyInputMessage)]
      ensures ParseDomains(domainsText) != [] ==>
        isLoading && pending == Some(ParseDomains(domainsText))
        && requests == old(requests) + [ParseDomains(domainsText)]
        && toasts == old(toasts) + [LoadingToast(LoadingMessage)]
    {
      var domains := ParseDomains(domainsText);
      if |domains| == 0 {
        toasts := toasts + [ErrorToast(EmptyInputMessage)];
        return;
      }
      isLoading := true;
      toasts := toasts + [LoadingToast(LoadingMessage)];
      requests := requests + [domains];
      pending := Some(domains);
    }

    /** `handleSubmit` after the request settles. On success the text area is
        cleared, `onDomainsAdded` receives the whole list that was sent (not
        only the names the server kept) and the dialog closes; otherwise the
        loading notification is replaced by the error and the text is kept.
        Either way the dialog stops loading. */
    method Resolve(outcome: Outcome)
      requires Valid() && isLoading
      modifies this
      ensures Valid()
      ensures !isLoading && pending.None? && requests == old(requests)
      ensures Succeeded(outcome) ==>
        domainsText == "" && added == old(added) + [old(pending).value] && closeCount == old(closeCount) + 1
        && toasts == old(toasts) + [SuccessToast(outcome.message)]
      ensures !Succeeded(outcome) ==>
        domainsText == old(domainsText) && added == old(added) && closeCount == old(closeCount)
        && toasts == old(toasts) + [Dismissed, ErrorToast(ErrorText(outcome))]
    {
      var domains := pending.value;
      if outcome.Answered? && outcome.ok {
        toasts := toasts + [SuccessToast(outcome.message)];
        domainsText := "";
        added := added + [domains];
        closeCount := closeCount + 1;
      } else {
        var text: string;
        if outcome.Answered? {
          text := if outcome.detail.Some? && outcome.detail.value != "" then outcome.detail.value else FallbackError;
        } else if outcome.errorMessage.Some? {
          text := outcome.errorMessage.value;
        } else {
          text := UnknownError;
        }
        toasts := toasts + [Dismissed, ErrorToast(text)];
      }
      isLoading := false;
      pending := None;
    }
  }
}
