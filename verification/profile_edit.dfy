/**
 * static/js/profile_edit.js: in-place editing of the profile's name and
 * shipping address. The cookie parser and the toggles it shares with the
 * artwork page live in ScriptHelpers.
 */
module ProfileEdit {
  import opened Wrappers
  import opened ScriptHelpers
  import Views

  /** `getBackendFieldName`: the page's field names to the names the
      profile-update view expects; unmapped names pass through unchanged. */
  function BackendFieldName(field: string): (backend: string)
    ensures field == "shippingAddress" ==> backend == "shipping_address"
    ensures field != "shippingAddress" ==> backend == field
  {
    var fieldMapping := map["name" := "name", "shippingAddress" := "shipping_address"];
    if field in fieldMapping then fieldMapping[field] else field
  }

  /** The form fields `saveEdit` posts to the profile-update view; the token
      is `None` when there is no `csrftoken` cookie. */
  datatype UpdateRequest = UpdateRequest(field: string, value: string, csrfToken: Option<string>)

  /** The request `saveEdit(field)` builds: the backend field name, the
      input's current value and the CSRF cookie, unchanged. */
  method SaveEditRequest(doc: Document, field: string, cookie: string, decode: string -> string)
    returns (request: UpdateRequest)
    requires InputId(field) in doc.elements
    ensures request.field == BackendFieldName(field)
    ensures request.value == doc.elements[InputId(field)].value
    ensures request.csrfToken == CookieValue(cookie, "csrftoken", decode)
  {
    var backendField := BackendFieldName(field);
    var newValue := doc.elements[InputId(field)].value;
    var token := GetCookie(cookie, "csrftoken", decode);
    request := UpdateRequest(backendField, newValue, token);
  }

  /** The two fields the profile page edits reach the view under names its
      allow-list accepts, and of all page field names exactly these (plus
      the backend spelling itself) are accepted. */
  lemma EditableFieldsAreAllowed(field: string)
    ensures field == "name" || field == "shippingAddress" ==> BackendFieldName(field) in Views.PROFILE_FIELDS
    ensures BackendFieldName(field) in Views.PROFILE_FIELDS <==>
      field == "name" || field == "shippingAddress" || field == "shipping_address"
  {
  }
}
