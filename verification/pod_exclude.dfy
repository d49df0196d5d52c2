/**
 * The exclusion list of the oldest revisions: the comma-separated names in
 * the pod annotation `unagex.com/kondense-exclude`.
 */
module PodExclude {
  import opened Strings
  import Registry

  const ExcludeAnnotation: string := "unagex.com/kondense-exclude"

  /** `containersToExclude(pod)`: no names when the annotation is absent. */
  function ContainersToExclude(annotations: map<string, string>): (r: seq<string>)
    ensures ExcludeAnnotation !in annotations ==> r == []
    ensures ExcludeAnnotation in annotations ==>
      |r| >= 1 && Separated(r, ',') && Join(r, ',') == annotations[ExcludeAnnotation]
    ensures ExcludeAnnotation in annotations && annotations[ExcludeAnnotation] == "" ==> r == [""]
  {
    Registry.NameList(annotations, ExcludeAnnotation)
  }
}
