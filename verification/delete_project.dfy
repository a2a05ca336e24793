/** The delete-project confirmation: only projects below 20% progress can
    be deleted, and the delete action exists only for them. */
module DeleteProject {
  import opened Common
  import opened Records

  /** `canDelete`. */
  predicate CanDelete(p: Project) {
    p.progress < 20.0
  }

  /** What the dialog renders: its title and whether the red delete action is
      offered. */
  datatype DeleteView = DeleteView(title: string, offersDelete: bool)

  /** The dialog renders nothing without a project. */
  function Render(project: Option<Project>): (r: Option<DeleteView>)
    ensures r.None? <==> project.None?
    ensures r.Some? ==> (r.value.offersDelete <==> CanDelete(project.value))
    ensures r.Some? ==> (r.value.title == "¿Eliminar proyecto?" <==> CanDelete(project.value))
  {
    match project
    case None => None
    case Some(p) =>
      if CanDelete(p) then Some(DeleteView("¿Eliminar proyecto?", true))
      else Some(DeleteView("No se puede eliminar el proyecto", false))
  }

  /** `handleDelete`'s effect: the id passed to `onDeleteProject` (if any) and
      whether the dialog closes. */
  datatype DeleteEffect = DeleteEffect(deleted: Option<string>, closes: bool)

  function HandleDelete(p: Project): (r: DeleteEffect)
    ensures r.deleted.Some? <==> CanDelete(p)
    ensures r.deleted.Some? ==> r.deleted.value == p.id
    ensures r.closes <==> CanDelete(p)
  {
    if CanDelete(p) then DeleteEffect(Some(p.id), true) else DeleteEffect(None, false)
  }

  /** A deletion happens only through an offered action, so only for a
      present project under 20% progress; exactly 20% is kept. */
  lemma DeletionNeedsLowProgress(project: Option<Project>)
    ensures (exists v :: Render(project) == Some(v) && v.offersDelete) ==>
      project.Some? && project.value.progress < 20.0 && HandleDelete(project.value).deleted == Some(project.value.id)
    ensures project.Some? && project.value.progress == 20.0 ==>
      !Render(project).value.offersDelete && HandleDelete(project.value).deleted.None?
  {
  }
}
