/**
  The editable list of source URLs kept in the session (`urls`): the one
  blank slot it starts with, the "Agregar URL" and "Eliminar" buttons, the
  in-place edit of a text box, and the filter that keeps only the URLs that
  are not blank.
 */
module UrlList {
  import opened Text

  /** The list a new session starts with: one blank input slot. */
  const Initial: seq<string> := [""]

  /** `add_url`: a new blank slot at the end; the existing entries stay put. */
  function AddUrl(urls: seq<string>): (r: seq<string>)
    ensures |r| == |urls| + 1
    ensures r[..|urls|] == urls && r[|urls|] == ""
  {
    urls + [""]
  }

  /** `remove_url(index)`: `list.pop(index)`, then a fresh blank slot if that
      emptied the list. */
  function RemoveUrl(urls: seq<string>, index: nat): (r: seq<string>)
    requires index < |urls|
    ensures |r| >= 1
    ensures |urls| == 1 ==> r == [""]
    ensures |urls| > 1 ==> |r| == |urls| - 1
    ensures |urls| > 1 ==> forall k :: 0 <= k < index ==> r[k] == urls[k]
    ensures |urls| > 1 ==> forall k :: index <= k < |r| ==> r[k] == urls[k + 1]
  {
    var popped := urls[..index] + urls[index + 1..];
    if popped == [] then [""] else popped
  }

  /** The text box of entry `index` writes its value back into the list. */
  function EditUrl(urls: seq<string>, index: nat, value: string): (r: seq<string>)
    requires index < |urls|
    ensures |r| == |urls| && r[index] == value
    ensures forall k :: 0 <= k < |urls| && k != index ==> r[k] == urls[k]
  {
    urls[index := value]
  }

  /** One user edit of the URL list. */
  datatype UrlEdit = Add | Remove(index: nat) | Edit(index: nat, value: string)

  /** An edit at an index the list does not have changes nothing: `pop` and
      item assignment raise `IndexError` before touching the list. */
  function ApplyEdit(urls: seq<string>, e: UrlEdit): (r: seq<string>)
    ensures |urls| >= 1 ==> |r| >= 1
    ensures !e.Add? && e.index >= |urls| ==> r == urls
  {
    match e
    case Add => AddUrl(urls)
    case Remove(i) => if i < |urls| then RemoveUrl(urls, i) else urls
    case Edit(i, v) => if i < |urls| then EditUrl(urls, i, v) else urls
  }

  function ApplyEdits(urls: seq<string>, edits: seq<UrlEdit>): seq<string>
    decreases |edits|
  {
    if edits == [] then urls else ApplyEdits(ApplyEdit(urls, edits[0]), edits[1..])
  }

  /** The list always offers at least one input slot, whatever edits the user
      makes from a list that had one. */
  lemma {:induction false} EditsKeepNonEmpty(urls: seq<string>, edits: seq<UrlEdit>)
    requires |urls| >= 1
    ensures |ApplyEdits(urls, edits)| >= 1
    decreases |edits|
  {
    if edits != [] {
      EditsKeepNonEmpty(ApplyEdit(urls, edits[0]), edits[1..]);
    }
  }

  /** Removing the entry just added restores the list. */
  lemma RemoveUndoesAdd(urls: seq<string>)
    requires |urls| >= 1
    ensures RemoveUrl(AddUrl(urls), |urls|) == urls
  {
    var a := AddUrl(urls);
    assert a[..|urls|] + a[|urls| + 1..] == urls;
  }

  /** `[url for url in urls if url.strip()]`: the URLs that are fetched,
      each unchanged and in the order of the list. */
  function ValidUrls(urls: seq<string>): (r: seq<string>)
    ensures |r| <= |urls|
    ensures forall k :: 0 <= k < |r| ==> !IsBlank(r[k])
  {
    NonBlank(urls)
  }

  /** A freshly added slot is blank, so adding one never changes which URLs
      are fetched; in particular the initial list has none. */
  lemma AddKeepsValidUrls(urls: seq<string>)
    ensures ValidUrls(AddUrl(urls)) == ValidUrls(urls)
    ensures ValidUrls(Initial) == []
  {
    NonBlankAppend(urls, [""]);
    assert AllSpace("");
    StripShape("");
    assert [""][1..] == [];
  }
}
