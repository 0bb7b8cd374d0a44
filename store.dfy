/** The Prisma client: one mutable store holding every table. */
module Store {
  import opened Entities

  class Db {
    var workspaces: seq<Workspace>
    var projects: seq<Project>
    var sections: seq<Section>
    var tasks: seq<Task>
    var tags: seq<Tag>
    var taskTags: seq<TaskTag>

    /** The tables as one value. */
    function State(): Database
      reads this
    {
      Database(workspaces, projects, sections, tasks, tags, taskTags)
    }

    predicate Valid()
      reads this
    {
      Consistent(State())
    }

    /** An empty database. */
    constructor ()
      ensures State() == Empty && Valid()
    {
      workspaces, projects, sections := [], [], [];
      tasks, tags, taskTags := [], [], [];
    }
  }
}
