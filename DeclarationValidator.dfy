/** The startup check over every handler method of a REST controller bean:
    each `@Authorize`/`@AuthorizeList` must carry a scope or a bypass, not both
    and not neither; the first offending method aborts startup. */
module DeclarationValidator {
  import opened Common
  import opened Scopes
  import opened Annotations

  /** A declared method of the bean's class and its authorization annotations. */
  datatype HandlerMethod = HandlerMethod(name: string, declaration: Declaration)

  /** A bean handed to the post-processor: its class's `@RestController` marker
      and declared methods are fixed at construction. */
  class Bean {
    const isRestController: bool
    const declaredMethods: seq<HandlerMethod>

    constructor (isRestController: bool, declaredMethods: seq<HandlerMethod>)
      ensures this.isRestController == isRestController
      ensures this.declaredMethods == declaredMethods
    {
      this.isRestController := isRestController;
      this.declaredMethods := declaredMethods;
    }
  }

  function BothMessage(methodName: string, beanName: string): string {
    "The method '" + methodName + "' in bean '" + beanName
    + "' cannot have both 'scope' and 'bypass' set simultaneously in the '@Authorize' annotation."
  }

  function NeitherMessage(methodName: string, beanName: string): string {
    "The method '" + methodName + "' in bean '" + beanName
    + "' must have either 'scope' or 'bypass' set in the '@Authorize' annotation."
  }

  /** Scope XOR bypass, or an IllegalStateException naming the method and bean. */
  function ValidateAnnotationArguments(containsScope: bool, containsBypass: bool,
                                       methodName: string, beanName: string): (r: Outcome)
    ensures r == Normal <==> containsScope != containsBypass
    ensures containsScope && containsBypass ==> r == Thrown(IllegalState(BothMessage(methodName, beanName)))
    ensures !containsScope && !containsBypass ==> r == Thrown(IllegalState(NeitherMessage(methodName, beanName)))
  {
    if containsScope && containsBypass then Thrown(IllegalState(BothMessage(methodName, beanName)))
    else if !containsScope && !containsBypass then Thrown(IllegalState(NeitherMessage(methodName, beanName)))
    else Normal
  }

  /** A single `@Authorize` has a scope when its constant's string value is
      non-null, so NONE counts as no scope. */
  function ValidateAuthorize(a: Authorize, methodName: string, beanName: string): Outcome {
    ValidateAnnotationArguments(a.scope.Value().Some?, a.bypass, methodName, beanName)
  }

  /** A container has a scope when some element's scope constant (the enum
      constant itself, not its string value) is non-null. An annotation element
      is never null, so that holds as soon as there is any element at all. */
  predicate ListContainsScope(list: seq<Authorize>) {
    |list| > 0
  }

  predicate ListContainsBypass(list: seq<Authorize>) {
    exists i :: 0 <= i < |list| && list[i].bypass
  }

  function ValidateAuthorizeList(list: seq<Authorize>, methodName: string, beanName: string): Outcome {
    ValidateAnnotationArguments(ListContainsScope(list), ListContainsBypass(list), methodName, beanName)
  }

  /** One iteration of the method loop: the container is checked when present,
      otherwise a direct `@Authorize`, otherwise nothing. */
  function ValidateMethod(m: HandlerMethod, beanName: string): Outcome {
    match m.declaration
    case Declaration(_, Some(list)) => ValidateAuthorizeList(list, m.name, beanName)
    case Declaration(Some(a), None) => ValidateAuthorize(a, m.name, beanName)
    case Declaration(None, None) => Normal
  }

  predicate MethodsValid(methods: seq<HandlerMethod>, beanName: string) {
    forall i :: 0 <= i < |methods| ==> ValidateMethod(methods[i], beanName) == Normal
  }

  /** A single annotation passes exactly when it has a non-NONE scope or bypass, not both. */
  lemma ValidateAuthorizeIff(a: Authorize, methodName: string, beanName: string)
    ensures ValidateAuthorize(a, methodName, beanName) == Normal <==> (a.scope != NONE) != a.bypass
  {
    ValuesDistinct(a.scope, a.scope);
  }

  /** Every non-empty container has a scope, so it passes exactly when no
      element bypasses; an empty container fails as "neither". */
  lemma ValidateAuthorizeListIff(list: seq<Authorize>, methodName: string, beanName: string)
    ensures ValidateAuthorizeList(list, methodName, beanName) == Normal
            <==> |list| > 0 && forall i :: 0 <= i < |list| ==> !list[i].bypass
  {
  }

  /** `validateAnnotationsOnMethods`: walks the declared methods in order and
      throws the first violation. */
  method ValidateAnnotationsOnMethods(methods: seq<HandlerMethod>, beanName: string) returns (r: Outcome)
    ensures r == Normal <==> MethodsValid(methods, beanName)
    ensures r != Normal ==>
      exists i :: (0 <= i < |methods| && r == ValidateMethod(methods[i], beanName)
                   && forall j :: 0 <= j < i ==> ValidateMethod(methods[j], beanName) == Normal)
  {
    var i := 0;
    while i < |methods|
      invariant 0 <= i <= |methods|
      invariant forall j :: 0 <= j < i ==> ValidateMethod(methods[j], beanName) == Normal
    {
      var o := ValidateMethod(methods[i], beanName);
      if o != Normal {
        return o;
      }
      i := i + 1;
    }
    return Normal;
  }

  /** `postProcessBeforeInitialization`: only REST controllers are validated,
      and the bean handed in is the bean handed back. */
  method PostProcessBeforeInitialization(bean: Bean, beanName: string) returns (r: Result<Bean>)
    ensures !bean.isRestController ==> r == Ok(bean)
    ensures r.Ok? ==> r.value == bean
    ensures r.Ok? <==> !bean.isRestController || MethodsValid(bean.declaredMethods, beanName)
    ensures r.Err? ==>
      exists i :: (&& 0 <= i < |bean.declaredMethods|
                   && Thrown(r.error) == ValidateMethod(bean.declaredMethods[i], beanName)
                   && forall j :: 0 <= j < i ==> ValidateMethod(bean.declaredMethods[j], beanName) == Normal)
  {
    if bean.isRestController {
      var o := ValidateAnnotationsOnMethods(bean.declaredMethods, beanName);
      if o.Thrown? {
        return Err(o.error);
      }
    }
    return Ok(bean);
  }
}
