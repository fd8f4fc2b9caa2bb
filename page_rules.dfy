/** The rules the two analysis pages share: the `:type` route parameter is checked on mount,
    and the page heading is built from it. */
module PageRules {
  import opened Common
  import opened Kinds

  /** `type && validTypes.includes(type)`: the category the route parameter names. An absent
      parameter (`undefined`) and the empty string are both falsy. */
  function RouteKind(param: Option<string>): (r: Option<Kind>)
    ensures r.Some? <==> param.Some? && param.value in ValidTypes
    ensures r.Some? ==> Name(r.value) == param.value
  {
    if param.None? || param.value == "" then None else Parse(param.value)
  }

  /** The loading screen's cosmetic delay, in milliseconds. */
  const LoadingDelay: nat := 1500

  /** What the mount effect does: leave for the dashboard, or start the loading timer (and, on
      the camera page, the model loads). */
  datatype MountEffect = Redirect(path: string) | StartLoading(delayMs: nat, loadsModels: bool)

  function OnMount(param: Option<string>, loadsModels: bool): (r: MountEffect)
    ensures r.Redirect? <==> RouteKind(param).None?
    ensures r.Redirect? ==> r.path == "/dashboard"
    ensures r.StartLoading? ==> r.delayMs == LoadingDelay && r.loadsModels == loadsModels
  {
    if RouteKind(param).None? then Redirect("/dashboard") else StartLoading(LoadingDelay, loadsModels)
  }

  /** The heading of the upload page: `Face Analysis` for `face`, and `Analysis` when the
      parameter is falsy. */
  function Title(param: Option<string>): (r: string)
    ensures param.None? || param.value == "" ==> r == "Analysis"
    ensures param.Some? && param.value != "" ==>
      r == Capitalize(param.value) + " Analysis" && |r| == |param.value| + |" Analysis"|
  {
    if param.None? || param.value == "" then "Analysis" else Capitalize(param.value) + " Analysis"
  }

  /** The heading of the camera page: `Real-time ` and the capitalised parameter, which an
      absent parameter renders as nothing. */
  function CameraTitle(param: Option<string>): (r: string)
    ensures IsPrefix("Real-time ", r)
  {
    "Real-time " + (if param.None? then "" else Capitalize(param.value)) + " Analysis"
  }

  /** On an accepted route the two headings agree. */
  lemma CameraTitleExtendsTitle(k: Kind)
    ensures CameraTitle(Some(Name(k))) == "Real-time " + Title(Some(Name(k)))
  {
  }

  /** The heading determines the parameter, for parameters starting with a lower-case letter
      (every category name does), so distinct categories get distinct headings. */
  lemma TitleInjective(s: string, t: string)
    requires |s| > 0 && IsAsciiLower(s[0]) && |t| > 0 && IsAsciiLower(t[0])
    requires Title(Some(s)) == Title(Some(t))
    ensures s == t
  {
    var ts, tt := Title(Some(s)), Title(Some(t));
    assert |s| == |t|;
    assert Capitalize(s) == ts[..|s|];
    assert Capitalize(t) == tt[..|t|];
    CapitalizeInjective(s, t);
  }
}
