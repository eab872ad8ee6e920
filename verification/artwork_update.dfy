/**
 * static/js/artwork_update.js: in-place editing of a pending artwork's title
 * and description. The script defines `getBackendFieldName` twice, with the
 * same body; the model has it once. The cookie parser and the toggles it
 * shares with the profile page live in ScriptHelpers.
 */
module ArtworkUpdate {
  import opened Wrappers
  import opened ScriptHelpers

  /** `getBackendFieldName`: its mapping sends "title" and "description" to
      themselves and every other name falls through unchanged, so it is the
      identity. */
  function BackendFieldName(field: string): (backend: string)
    ensures backend == field
  {
    var fieldMapping := map["title" := "title", "description" := "description"];
    if field in fieldMapping then fieldMapping[field] else field
  }

  /** The form fields `saveEdit` posts for a pending artwork. */
  datatype UpdateRequest = UpdateRequest(artworkId: string, field: string, value: string, csrfToken: Option<string>)

  /** `saveEdit(field, artworkId)`: build the request from the input's
      current value, and when the server answers with status "success"
      (`accepted`) switch the field back to text showing that value; any
      other answer, or a failed request, leaves the page as it is. */
  method SaveEdit(doc: Document, field: string, artworkId: string, cookie: string, decode: string -> string, accepted: bool)
    returns (request: UpdateRequest)
    requires HasEditor(doc.elements, field)
    modifies doc
    ensures request == UpdateRequest(artworkId, field, old(doc.elements)[InputId(field)].value,
                                     CookieValue(cookie, "csrftoken", decode))
    ensures accepted ==> doc.elements == TextMode(old(doc.elements), field, request.value)
    ensures !accepted ==> doc.elements == old(doc.elements)
  {
    var backendField := BackendFieldName(field);
    var newValue := doc.elements[InputId(field)].value;
    var token := GetCookie(cookie, "csrftoken", decode);
    request := UpdateRequest(artworkId, backendField, newValue, token);
    if accepted {
      doc.ToggleBackToText(field, newValue);
    }
  }
}
