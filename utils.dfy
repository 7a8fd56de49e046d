/** The utilities of ant_nest/utils.py: extraction that swallows exceptions, and a log filter
    that mutes the records of chosen exception types. */
module Utils {
  import opened Common
  import Things

  /** `extract_value`: `ItemExtractor.extract_value` under the extract type (`take_first` when
      not given); if that raises, the default (`None` when not given) is returned when
      exceptions are ignored, which they are unless told otherwise, and the exception is raised
      again when they are not. */
  function ExtractValue(pathType: string, path: string, data: Value, extractType: Option<string>,
                        ignoreException: Option<bool>, default: Option<Value>, search: Things.Searcher)
    : (r: Result<Value, Error>)
    ensures var inner := Things.ExtractValue(pathType, path, data, extractType.GetOr(Things.TakeFirst), search);
      && (inner.Ok? ==> r == inner)
      && (inner.Err? && ignoreException.GetOr(true) ==> r == Ok(default.GetOr(Null)))
      && (inner.Err? && !ignoreException.GetOr(true) ==> r == inner)
  {
    var inner := Things.ExtractValue(pathType, path, data, extractType.GetOr(Things.TakeFirst), search);
    if inner.Err? && ignoreException.GetOr(true) then Ok(default.GetOr(Null)) else inner
  }

  /** Unless told not to ignore exceptions, `extract_value` never raises. */
  lemma IgnoringNeverRaises(pathType: string, path: string, data: Value, extractType: Option<string>,
                            ignoreException: Option<bool>, default: Option<Value>, search: Things.Searcher)
    requires ignoreException.GetOr(true)
    ensures ExtractValue(pathType, path, data, extractType, ignoreException, default, search).Ok?
  {
  }

  /** With the defaults, a search with no match gives `None`, and one with matches gives the
      first of them. */
  lemma DefaultsTakeFirstOrNone(pathType: string, path: string, data: Value, search: Things.Searcher)
    requires pathType == "xpath" || pathType == "regex" || pathType == "jpath"
    requires search(pathType, path, data).Ok?
    ensures var found := search(pathType, path, data).value;
      ExtractValue(pathType, path, data, None, None, None, search) == Ok(if found == [] then Null else found[0])
  {
  }

  /** An unknown path type raises `ValueError` inside; only a caller who asks for exceptions
      sees it. */
  lemma UnknownPathType(pathType: string, path: string, data: Value, extractType: Option<string>,
                        default: Option<Value>, search: Things.Searcher)
    requires pathType != "xpath" && pathType != "regex" && pathType != "jpath"
    ensures ExtractValue(pathType, path, data, extractType, Some(false), default, search) == Err(ValueError)
    ensures ExtractValue(pathType, path, data, extractType, Some(true), default, search) == Ok(default.GetOr(Null))
  {
  }

  /** `extract_value_by_xpath`: `extract_value` with the path type `'xpath'`. */
  function ExtractValueByXpath(path: string, data: Value, extractType: Option<string>,
                               ignoreException: Option<bool>, default: Option<Value>, search: Things.Searcher)
    : (r: Result<Value, Error>)
    ensures r == ExtractValue("xpath", path, data, extractType, ignoreException, default, search)
  {
    ExtractValue("xpath", path, data, extractType, ignoreException, default, search)
  }

  /** `extract_value_by_jpath`: `extract_value` with the path type `'jpath'`. */
  function ExtractValueByJpath(path: string, data: Value, extractType: Option<string>,
                               ignoreException: Option<bool>, default: Option<Value>, search: Things.Searcher)
    : (r: Result<Value, Error>)
    ensures r == ExtractValue("jpath", path, data, extractType, ignoreException, default, search)
  {
    ExtractValue("jpath", path, data, extractType, ignoreException, default, search)
  }

  /** `extract_value_by_regex`: `extract_value` with the path type `'regex'`. */
  function ExtractValueByRegex(path: string, data: Value, extractType: Option<string>,
                               ignoreException: Option<bool>, default: Option<Value>, search: Things.Searcher)
    : (r: Result<Value, Error>)
    ensures r == ExtractValue("regex", path, data, extractType, ignoreException, default, search)
  {
    ExtractValue("regex", path, data, extractType, ignoreException, default, search)
  }

  /** The three shortcuts search the data with their own path type, and only a search error
      (never an unknown path type) can reach a caller who asks for exceptions. */
  lemma ShortcutsSearchTheirOwnType(path: string, data: Value, extractType: Option<string>,
                                    default: Option<Value>, search: Things.Searcher)
    ensures ExtractValueByXpath(path, data, extractType, Some(false), default, search).Ok? ==>
      search("xpath", path, data).Ok?
    ensures ExtractValueByJpath(path, data, extractType, Some(false), default, search).Ok? ==>
      search("jpath", path, data).Ok?
    ensures ExtractValueByRegex(path, data, extractType, Some(false), default, search).Ok? ==>
      search("regex", path, data).Ok?
    ensures ExtractValueByXpath(path, data, extractType, Some(false), default, search) != Err(ValueError) ||
      search("xpath", path, data) == Err(ValueError)
  {
  }

  /** `ExceptionFilter`: exception types are compared by identity, each type being its id. */
  class ExceptionFilter {
    const exceptions: seq<nat>

    constructor (exceptions: seq<nat>)
      ensures this.exceptions == exceptions
    {
      this.exceptions := exceptions;
    }

    /** `filter`: a record without exception information is kept; one with it is dropped
        exactly when its type is one of the listed types itself, so a subclass of a listed type
        is kept. */
    method Filter(excType: Option<nat>) returns (keep: bool)
      ensures keep <==> excType.None? || excType.value !in exceptions
    {
      if excType.None? {
        return true;
      }
      for i := 0 to |exceptions|
        invariant excType.value !in exceptions[..i]
      {
        if exceptions[i] == excType.value {
          return false;
        }
      }
      assert exceptions[..|exceptions|] == exceptions;
      return true;
    }
  }
}
