/** The IE driver's Get Element Attribute command (GetElementAttributeCommandHandler, section
    12.3.2 of the W3C WebDriver specification): the checks and lookups that lead to the one
    response it writes. */
module IeGetElementAttribute {
  import opened Wrappers

  /** Status codes of the driver's own lookups; the values are those of the legacy wire protocol. */
  const WD_SUCCESS: int := 0
  const ENOSUCHELEMENT: int := 7

  /** The error names the handler answers with. */
  datatype ErrorName =
    | ERROR_INVALID_ARGUMENT
    | ERROR_NO_SUCH_WINDOW
    | ERROR_NO_SUCH_ELEMENT
    | ERROR_STALE_ELEMENT_REFERENCE
    | StatusCode(code: int)

  /** The response: success with a string or with null, or an error with its message. */
  datatype Response = Success(value: Option<string>) | Error(name: ErrorName, message: string)

  /** What an attribute read reports: its status, the text read and whether the attribute is null. */
  datatype AttributeRead = AttributeRead(status: int, value: string, isNull: bool)

  /** The executor and element calls the handler makes, in order. */
  datatype Call = GetCurrentBrowser | GetElement(elementId: string) | GetAttributeValue(elementId: string, name: string)

  datatype Handled = Handled(response: Response, calls: seq<Call>)

  /** `ExecuteInternal`. `browserStatus` is what `GetCurrentBrowser` returns, `elementStatus` what
      `GetElement` returns for an id and `readAttribute` what `GetAttributeValue` reports; the
      browser and element accessors are not part of this model. */
  function ExecuteInternal(parameters: map<string, string>, browserStatus: int,
                           elementStatus: string -> int, readAttribute: (string, string) -> AttributeRead)
    : (h: Handled)
    ensures "id" !in parameters ==> h == Handled(Error(ERROR_INVALID_ARGUMENT, "Missing parameter in URL: id"), [])
    ensures "id" in parameters && "name" !in parameters ==>
      h == Handled(Error(ERROR_INVALID_ARGUMENT, "Missing parameter in URL: name"), [])
    ensures h.response.Success? ==> ("id" in parameters && "name" in parameters && browserStatus == WD_SUCCESS &&
      elementStatus(parameters["id"]) == WD_SUCCESS &&
      readAttribute(parameters["id"], parameters["name"]).status == WD_SUCCESS)
  {
    if "id" !in parameters then
      Handled(Error(ERROR_INVALID_ARGUMENT, "Missing parameter in URL: id"), [])
    else if "name" !in parameters then
      Handled(Error(ERROR_INVALID_ARGUMENT, "Missing parameter in URL: name"), [])
    else
      var elementId := parameters["id"];
      var name := parameters["name"];
      if browserStatus != WD_SUCCESS then
        Handled(Error(ERROR_NO_SUCH_WINDOW, "Unable to get browser"), [GetCurrentBrowser])
      else
        var status := elementStatus(elementId);
        var calls := [GetCurrentBrowser, GetElement(elementId)];
        if status == WD_SUCCESS then
          var read := readAttribute(elementId, name);
          var calls' := calls + [GetAttributeValue(elementId, name)];
          if read.status != WD_SUCCESS then Handled(Error(StatusCode(read.status), "Unable to get attribute"), calls')
          else if read.isNull then Handled(Success(None), calls')
          else Handled(Success(Some(read.value)), calls')
        else if status == ENOSUCHELEMENT then
          Handled(Error(ERROR_NO_SUCH_ELEMENT, "Invalid internal element ID requested: " + elementId), calls)
        else
          Handled(Error(ERROR_STALE_ELEMENT_REFERENCE, "Element is no longer valid"), calls)
  }

  /** A browser that cannot be found answers "no such window" and no element is looked up. */
  lemma NoBrowserNoElementLookup(parameters: map<string, string>, browserStatus: int,
                                 elementStatus: string -> int, readAttribute: (string, string) -> AttributeRead)
    requires "id" in parameters && "name" in parameters && browserStatus != WD_SUCCESS
    ensures var h := ExecuteInternal(parameters, browserStatus, elementStatus, readAttribute);
      h.response == Error(ERROR_NO_SUCH_WINDOW, "Unable to get browser") &&
      forall i | 0 <= i < |h.calls| :: !h.calls[i].GetElement? && !h.calls[i].GetAttributeValue?
  {
  }

  /** A failed element lookup answers "no such element" for ENOSUCHELEMENT and "stale element
      reference" for any other failure, and no attribute is read. */
  lemma ElementFailure(parameters: map<string, string>, elementStatus: string -> int,
                       readAttribute: (string, string) -> AttributeRead)
    requires "id" in parameters && "name" in parameters
    requires elementStatus(parameters["id"]) != WD_SUCCESS
    ensures var h := ExecuteInternal(parameters, WD_SUCCESS, elementStatus, readAttribute);
      (h.response.Error? && (h.response.name == ERROR_NO_SUCH_ELEMENT <==> elementStatus(parameters["id"]) == ENOSUCHELEMENT)) &&
      (h.response.name == ERROR_NO_SUCH_ELEMENT || h.response.name == ERROR_STALE_ELEMENT_REFERENCE) &&
      forall i | 0 <= i < |h.calls| :: !h.calls[i].GetAttributeValue?
  {
  }

  /** Once the element is found the answer is the attribute read's: its status as the error, or
      success with null or with the text. */
  lemma AttributeOutcome(parameters: map<string, string>, elementStatus: string -> int,
                         readAttribute: (string, string) -> AttributeRead)
    requires "id" in parameters && "name" in parameters
    requires elementStatus(parameters["id"]) == WD_SUCCESS
    ensures var read := readAttribute(parameters["id"], parameters["name"]);
      var h := ExecuteInternal(parameters, WD_SUCCESS, elementStatus, readAttribute);
      h.response == (if read.status != WD_SUCCESS then Error(StatusCode(read.status), "Unable to get attribute")
                     else if read.isNull then Success(None) else Success(Some(read.value))) &&
      h.calls == [GetCurrentBrowser, GetElement(parameters["id"]), GetAttributeValue(parameters["id"], parameters["name"])]
  {
  }
}
