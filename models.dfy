/**
 The three models of assemble/models1.0.py that assign themselves a slug when
 saved: `Project`, `ProjectComponent` and `ComponentTask`. Each checks
 uniqueness against its own table only; `Tables` holds the slugs stored in each
 of the three tables.

 A slug is "not set" when it is `None` or the empty string, as Python's
 `not self.slug` reads it. `slugify` is a parameter: its internals are not part
 of this model.
 */
module Models {
  import opened Wrappers
  import Slugs

  /** The slugs held by the stored rows of each model's table. */
  class Tables {
    var projectSlugs: set<string>
    var componentSlugs: set<string>
    var taskSlugs: set<string>

    constructor ()
      ensures projectSlugs == {} && componentSlugs == {} && taskSlugs == {}
    {
      projectSlugs, componentSlugs, taskSlugs := {}, {}, {};
    }
  }

  /** The slug a stored row contributes to its table (a NULL slug contributes none). */
  function SlugsOf(stored: Option<string>): (r: set<string>)
    ensures r == {} <==> stored == None
  {
    if stored.Some? then {stored.value} else {}
  }

  /** Python's truth value of an optional slug. */
  predicate IsSet(slug: Option<string>) {
    slug.Some? && slug.value != ""
  }

  class Project {
    var name: string
    var description: string
    var completed: bool
    var slug: Option<string>
    /** The slug of this record's stored row; None until it is first saved. */
    var storedSlug: Option<string>

    constructor (name: string, description: string)
      ensures this.name == name && this.description == description
      ensures !completed && slug == None && storedSlug == None
    {
      this.name := name;
      this.description := description;
      completed := false;
      slug := None;
      storedSlug := None;
    }

    /**
     Assigns the unique slug for the current name when no slug is set, keeps a
     set slug as it is, and then stores the record: an update releases the slug
     its row held before, and afterwards the row holds the record's slug. No
     other field of the record and no other table changes.
     */
    method Save(tables: Tables, slugify: string -> string)
      modifies this`slug, this`storedSlug, tables`projectSlugs
      ensures IsSet(old(slug)) ==> slug == old(slug)
      ensures !IsSet(old(slug)) ==>
        slug == Some(Slugs.UniqueSlug(slugify(name), old(tables.projectSlugs)))
      ensures !IsSet(old(slug)) ==> slug.value !in old(tables.projectSlugs)
      ensures slug.Some? && storedSlug == slug
      ensures tables.projectSlugs == (old(tables.projectSlugs) - SlugsOf(old(storedSlug))) + {slug.value}
    {
      if !IsSet(slug) {
        var s := Slugs.GetUniqueSlug(slugify(name), tables.projectSlugs);
        slug := Some(s);
      }
      tables.projectSlugs := (tables.projectSlugs - SlugsOf(storedSlug)) + {slug.value};
      storedSlug := slug;
    }
  }

  class ProjectComponent {
    var name: string
    var description: string
    var completed: bool
    var slug: Option<string>
    /** The slug of this record's stored row; None until it is first saved. */
    var storedSlug: Option<string>
    var project: Project

    constructor (name: string, description: string, project: Project)
      ensures this.name == name && this.description == description && this.project == project
      ensures !completed && slug == None && storedSlug == None
    {
      this.name := name;
      this.description := description;
      this.project := project;
      completed := false;
      slug := None;
      storedSlug := None;
    }

    /** As `Project.Save`, against the component table. */
    method Save(tables: Tables, slugify: string -> string)
      modifies this`slug, this`storedSlug, tables`componentSlugs
      ensures IsSet(old(slug)) ==> slug == old(slug)
      ensures !IsSet(old(slug)) ==>
        slug == Some(Slugs.UniqueSlug(slugify(name), old(tables.componentSlugs)))
      ensures !IsSet(old(slug)) ==> slug.value !in old(tables.componentSlugs)
      ensures slug.Some? && storedSlug == slug
      ensures tables.componentSlugs == (old(tables.componentSlugs) - SlugsOf(old(storedSlug))) + {slug.value}
    {
      if !IsSet(slug) {
        var s := Slugs.GetUniqueSlug(slugify(name), tables.componentSlugs);
        slug := Some(s);
      }
      tables.componentSlugs := (tables.componentSlugs - SlugsOf(storedSlug)) + {slug.value};
      storedSlug := slug;
    }
  }

  class ComponentTask {
    var name: string
    var completed: bool
    var slug: Option<string>
    /** The slug of this record's stored row; None until it is first saved. */
    var storedSlug: Option<string>
    var projectComponent: ProjectComponent

    constructor (name: string, projectComponent: ProjectComponent)
      ensures this.name == name && this.projectComponent == projectComponent
      ensures !completed && slug == None && storedSlug == None
    {
      this.name := name;
      this.projectComponent := projectComponent;
      completed := false;
      slug := None;
      storedSlug := None;
    }

    /** As `Project.Save`, against the task table. */
    method Save(tables: Tables, slugify: string -> string)
      modifies this`slug, this`storedSlug, tables`taskSlugs
      ensures IsSet(old(slug)) ==> slug == old(slug)
      ensures !IsSet(old(slug)) ==>
        slug == Some(Slugs.UniqueSlug(slugify(name), old(tables.taskSlugs)))
      ensures !IsSet(old(slug)) ==> slug.value !in old(tables.taskSlugs)
      ensures slug.Some? && storedSlug == slug
      ensures tables.taskSlugs == (old(tables.taskSlugs) - SlugsOf(old(storedSlug))) + {slug.value}
    {
      if !IsSet(slug) {
        var s := Slugs.GetUniqueSlug(slugify(name), tables.taskSlugs);
        slug := Some(s);
      }
      tables.taskSlugs := (tables.taskSlugs - SlugsOf(storedSlug)) + {slug.value};
      storedSlug := slug;
    }
  }

  // ---------------------------------------------------------------------------
  // What callers can prove from the contracts alone
  // ---------------------------------------------------------------------------

  /**
   Saving a project twice keeps the slug of the first save, unless that slug
   was the empty string (a name that slugifies to nothing, into a table with no
   empty slug yet).
   */
  method SaveProjectTwice(p: Project, tables: Tables, slugify: string -> string)
    returns (first: string, second: string)
    modifies p`slug, p`storedSlug, tables`projectSlugs
    ensures first != "" || (slugify(p.name) == "" && "" !in old(tables.projectSlugs))
    ensures first != "" ==> second == first
  {
    p.Save(tables, slugify);
    first := p.slug.value;
    if !IsSet(old(p.slug)) {
      Slugs.UniqueSlugEmpty(slugify(p.name), old(tables.projectSlugs));
    }
    p.Save(tables, slugify);
    second := p.slug.value;
  }

  /** As `SaveProjectTwice`, for a component. */
  method SaveComponentTwice(c: ProjectComponent, tables: Tables, slugify: string -> string)
    returns (first: string, second: string)
    modifies c`slug, c`storedSlug, tables`componentSlugs
    ensures first != "" || (slugify(c.name) == "" && "" !in old(tables.componentSlugs))
    ensures first != "" ==> second == first
  {
    c.Save(tables, slugify);
    first := c.slug.value;
    if !IsSet(old(c.slug)) {
      Slugs.UniqueSlugEmpty(slugify(c.name), old(tables.componentSlugs));
    }
    c.Save(tables, slugify);
    second := c.slug.value;
  }

  /** As `SaveProjectTwice`, for a task. */
  method SaveTaskTwice(t: ComponentTask, tables: Tables, slugify: string -> string)
    returns (first: string, second: string)
    modifies t`slug, t`storedSlug, tables`taskSlugs
    ensures first != "" || (slugify(t.name) == "" && "" !in old(tables.taskSlugs))
    ensures first != "" ==> second == first
  {
    t.Save(tables, slugify);
    first := t.slug.value;
    if !IsSet(old(t.slug)) {
      Slugs.UniqueSlugEmpty(slugify(t.name), old(tables.taskSlugs));
    }
    t.Save(tables, slugify);
    second := t.slug.value;
  }

  /**
   Two records of one model with the same name get different slugs: the
   second one is suffixed `-1`.
   */
  method SameNameTwice(slugify: string -> string) returns (firstSlug: string, secondSlug: string)
    ensures firstSlug == slugify("testing")
    ensures secondSlug == slugify("testing") + "-1"
  {
    var tables := new Tables();
    var p1 := new Project("testing", "testing");
    var p2 := new Project("testing", "testing");
    p1.Save(tables, slugify);
    firstSlug := p1.slug.value;
    assert tables.projectSlugs == {firstSlug};
    p2.Save(tables, slugify);
    secondSlug := p2.slug.value;
    var base := slugify("testing");
    Slugs.UniqueSlugIsFirstFree(base, {firstSlug}, 1);
    assert Slugs.IsFirstFree(base, {firstSlug}, 1) by {
      Slugs.CandidateShape(base, 1);
    }
  }

  /**
   Uniqueness is per table: a project and a component with the same name get
   the same slug.
   */
  method SameSlugAcrossTables(slugify: string -> string)
    returns (projectSlug: string, componentSlug: string)
    ensures projectSlug == componentSlug == slugify("testing")
  {
    var tables := new Tables();
    var p := new Project("testing", "testing");
    p.Save(tables, slugify);
    var c := new ProjectComponent("testing", "testing", p);
    c.Save(tables, slugify);
    projectSlug, componentSlug := p.slug.value, c.slug.value;
  }

  /**
   A name that slugifies to the empty string first gets the empty slug, which
   Python reads as "not set". On an otherwise empty table the next save
   replaces it by `-1` and releases "", so a later record with such a name
   gets "" again.
   */
  method EmptySlugReassigned() returns (first: string, second: string, third: string)
    ensures first == "" && second == "-1" && third == ""
  {
    var tables := new Tables();
    var p := new Project("!!!", "");
    var slugify := (s: string) => "";
    p.Save(tables, slugify);
    first := p.slug.value;
    p.Save(tables, slugify);
    second := p.slug.value;
    Slugs.UniqueSlugIsFirstFree("", {""}, 1);
    assert second == "-1";
    assert tables.projectSlugs == {""} - {""} + {"-1"};
    var q := new Project("???", "");
    q.Save(tables, slugify);
    third := q.slug.value;
  }
}
