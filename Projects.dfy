/** The static project catalogue and its lookup by slug. */
module Projects {
  import opened Wrappers

  datatype Project = Project(slug: string, title: string, description: string)

  const ProjectList: seq<Project> := [
    Project("peripheral-nerve-regeneration-genes",
            "Peripheral Nerve Regeneration",
            "Exploring gene regulation in peripheral nerve repair.")
  ]

  function GetAllProjects(): (r: seq<Project>)
    ensures r == ProjectList
  {
    ProjectList
  }

  /** `list.find(p => p.slug === slug) || null`: the first entry with that slug. */
  function FindBySlug(list: seq<Project>, slug: string): (r: Option<Project>)
    ensures r.None? <==> forall i :: 0 <= i < |list| ==> list[i].slug != slug
    ensures r.Some? ==> r.value.slug == slug
    ensures r.Some? ==> exists i :: 0 <= i < |list| && list[i] == r.value
                                    && forall j :: 0 <= j < i ==> list[j].slug != slug
  {
    if list == [] then None
    else if list[0].slug == slug then Some(list[0])
    else
      var r := FindBySlug(list[1..], slug);
      assert forall i :: 1 <= i < |list| ==> list[i] == list[1..][i - 1];
      r
  }

  function GetProjectBySlug(slug: string): (r: Option<Project>)
    ensures r.None? <==> forall i :: 0 <= i < |ProjectList| ==> ProjectList[i].slug != slug
    ensures r.Some? ==> r.value.slug == slug && r.value in ProjectList
  {
    FindBySlug(ProjectList, slug)
  }

  lemma CatalogueLookups()
    ensures GetProjectBySlug("peripheral-nerve-regeneration-genes") == Some(ProjectList[0])
    ensures GetProjectBySlug("unknown") == None
  {
  }
}
