/** convert/create_controller.py: controller methods generated for the
    procedures of one object are gathered, per (user, object), by a
    ControllerManager kept in a class-level registry, and written out once
    as the controller skeleton with its placeholder replaced by the methods.
    The older path folds the methods into one text with
    ControllerGenerator.generate and fills the skeleton with
    generate_controller_class. The language model's answer (`result['method']`)
    is a parameter; writing the file is not modelled, the file a save would
    write is returned instead. */
module Controller {

  import opened Wrappers
  import opened Text

  /** The placeholder of the controller skeleton. */
  const CodePlaceholder := "CodePlaceHolder"

  /** The node type for which no controller method is generated. */
  const SkipNodeType := "FUNCTION"

  /** The separator between merged methods. */
  const MethodSeparator := "\n\n"

  /** A file as save_file would write it: its name and its content. */
  datatype SavedFile = SavedFile(fileName: string, content: string)

  /** The skeleton with every placeholder replaced by the merged methods,
      stripped and indented by four spaces. */
  function FillSkeleton(skeleton: string, merged: string): string {
    ReplaceAll(skeleton, CodePlaceholder, Indent(Strip(merged), "    "))
  }

  /** add_method's filter: only code that is not falsy and not blank after
      `strip()` is kept. */
  predicate Keeps(code: string) {
    code != [] && Strip(code) != []
  }

  /** The file of a controller class: `<class name>.java`, holding the
      filled skeleton. */
  function ControllerFile(className: string, skeleton: string, merged: string): SavedFile {
    SavedFile(className + ".java", FillSkeleton(skeleton, merged))
  }

  /** A skeleton holding the placeholder once is filled in that one place
      and left as it is elsewhere. */
  lemma {:induction false} FillOnePlaceholder(before: string, after: string, merged: string)
    requires !Contains(before + CodePlaceholder[..|CodePlaceholder| - 1], CodePlaceholder)
    requires !Contains(after, CodePlaceholder)
    ensures FillSkeleton(before + CodePlaceholder + after, merged)
            == before + Indent(Strip(merged), "    ") + after
  {
    ReplaceAllSingle(before, CodePlaceholder, after, Indent(Strip(merged), "    "));
  }

  /** A skeleton without the placeholder comes back unchanged. */
  lemma {:induction false} FillNoPlaceholder(skeleton: string, merged: string)
    requires !Contains(skeleton, CodePlaceholder)
    ensures FillSkeleton(skeleton, merged) == skeleton
  {
    ReplaceAllAbsent(skeleton, CodePlaceholder, Indent(Strip(merged), "    "));
  }

  class ControllerManager {
    var controllerSkeleton: string
    var controllerClassName: string
    var userId: string
    var projectName: string
    /** The gathered methods, in the order they were added. */
    var methods: seq<string>

    constructor(controllerSkeleton: string, controllerClassName: string, userId: string, projectName: string)
      ensures this.controllerSkeleton == controllerSkeleton
      ensures this.controllerClassName == controllerClassName
      ensures this.userId == userId && this.projectName == projectName
      ensures methods == []
    {
      this.controllerSkeleton := controllerSkeleton;
      this.controllerClassName := controllerClassName;
      this.userId := userId;
      this.projectName := projectName;
      methods := [];
    }

    /** Every gathered method is non-blank. */
    predicate Valid()
      reads this
    {
      forall i :: 0 <= i < |methods| ==> Keeps(methods[i])
    }

    /** add_method: appends the code when it is not blank, and otherwise
        changes nothing. */
    method AddMethod(methodCode: string)
      requires Valid()
      modifies this
      ensures Valid()
      ensures methods == old(methods) + (if Keeps(methodCode) then [methodCode] else [])
      ensures controllerSkeleton == old(controllerSkeleton) && controllerClassName == old(controllerClassName)
      ensures userId == old(userId) && projectName == old(projectName)
    {
      if methodCode != [] && Strip(methodCode) != [] {
        methods := methods + [methodCode];
      } else {
        assert methods + [] == methods;
      }
    }

    /** The file save_controller_file writes: the methods joined by a blank
        line, filled into the skeleton, under the class name. */
    method SaveControllerFile() returns (file: SavedFile)
      ensures file == ControllerFile(controllerClassName, controllerSkeleton, Join(methods, MethodSeparator))
    {
      var merged := Join(methods, MethodSeparator);
      var completed := ReplaceAll(controllerSkeleton, CodePlaceholder, Indent(Strip(merged), "    "));
      file := SavedFile(controllerClassName + ".java", completed);
    }
  }

  /** `ControllerManager._instances`: the managers by (user id, object
      name). */
  class ControllerRegistry {
    var instances: map<(string, string), ControllerManager>

    constructor()
      ensures instances == map[]
    {
      instances := map[];
    }

    /** No two keys share a manager, as each is created for its own key. */
    ghost predicate Valid()
      reads this
    {
      forall k1, k2 :: k1 in instances && k2 in instances && k1 != k2 ==> instances[k1] != instances[k2]
    }

    /** get_instance: the manager of the key, created from the arguments
        only when the key has none; a later call returns the same manager
        and ignores its arguments. */
    method GetInstance(objectName: string, controllerSkeleton: string, controllerClassName: string,
                       userId: string, projectName: string) returns (m: ControllerManager)
      requires Valid()
      modifies this
      ensures Valid()
      ensures (userId, objectName) in instances && m == instances[(userId, objectName)]
      ensures (userId, objectName) in old(instances) ==> instances == old(instances)
      ensures (userId, objectName) !in old(instances) ==>
                && fresh(m) && instances == old(instances)[(userId, objectName) := m]
                && m.controllerSkeleton == controllerSkeleton && m.controllerClassName == controllerClassName
                && m.userId == userId && m.projectName == projectName && m.methods == []
    {
      var key := (userId, objectName);
      if key !in instances {
        var created := new ControllerManager(controllerSkeleton, controllerClassName, userId, projectName);
        instances := instances[key := created];
      }
      m := instances[key];
    }

    /** clear_instance: the key is removed; nothing happens when it is
        absent. */
    method ClearInstance(userId: string, objectName: string)
      requires Valid()
      modifies this
      ensures Valid()
      ensures instances == old(instances) - {(userId, objectName)}
      ensures (userId, objectName) !in old(instances) ==> instances == old(instances)
    {
      var key := (userId, objectName);
      if key in instances {
        instances := instances - {key};
      }
    }

    /** start_controller_processing: the manager of the key is fetched or
        created first; for a FUNCTION nothing more happens, otherwise the
        generated method `generated` is added to it. No other manager
        changes. */
    method StartControllerProcessing(nodeType: string, controllerSkeleton: string, controllerClassName: string,
                                     objectName: string, userId: string, projectName: string, generated: string)
      requires Valid()
      requires forall k :: k in instances ==> instances[k].Valid()
      modifies this, instances.Values
      ensures Valid()
      ensures forall k :: k in instances ==> instances[k].Valid()
      ensures var key := (userId, objectName);
              && key in instances
              && instances == old(instances)[key := instances[key]]
              && (key in old(instances) ==> instances[key] == old(instances[key]))
              && instances[key].methods
                 == (if key in old(instances) then old(instances[key].methods) else [])
                    + (if nodeType != SkipNodeType && Keeps(generated) then [generated] else [])
      ensures forall k :: k in old(instances) && k != (userId, objectName) ==> instances[k].methods == old(instances[k].methods)
    {
      var m := GetInstance(objectName, controllerSkeleton, controllerClassName, userId, projectName);
      if nodeType == SkipNodeType {
        assert m.methods + [] == m.methods;
        return;
      }
      m.AddMethod(generated);
    }

    /** finalize_controller: the manager's file is produced and the manager
        removed; when the key has none, only a warning is logged and
        nothing is produced. */
    method FinalizeController(userId: string, objectName: string) returns (saved: Option<SavedFile>)
      requires Valid()
      modifies this
      ensures Valid()
      ensures instances == old(instances) - {(userId, objectName)}
      ensures (userId, objectName) !in old(instances) ==> saved == None
      ensures (userId, objectName) in old(instances) ==>
                var m := old(instances[(userId, objectName)]);
                saved == Some(ControllerFile(m.controllerClassName, m.controllerSkeleton, Join(m.methods, MethodSeparator)))
    {
      var key := (userId, objectName);
      if key in instances {
        var manager := instances[key];
        var file := manager.SaveControllerFile();
        ClearInstance(userId, objectName);
        return Some(file);
      }
      return None;
    }
  }

  // ===== the older, folding path =====

  /** ControllerGenerator.generate: a FUNCTION leaves the merged code as it
      is; otherwise the generated method is appended after a blank line. */
  function Generate(nodeType: string, mergeMethodCode: string, generated: string): string {
    if nodeType == SkipNodeType then mergeMethodCode else mergeMethodCode + MethodSeparator + generated
  }

  /** A procedure as the generators see it: its node type and the method
      the language model produced for it. */
  datatype Procedure = Procedure(nodeType: string, generated: string)

  /** generate applied to the procedures in order, starting from `merged`. */
  function GenerateAll(merged: string, ps: seq<Procedure>): string {
    if ps == [] then merged
    else Generate(ps[|ps| - 1].nodeType, GenerateAll(merged, ps[..|ps| - 1]), ps[|ps| - 1].generated)
  }

  /** The methods of the procedures that are not FUNCTIONs, in order. */
  function Generated(ps: seq<Procedure>): (r: seq<string>)
    ensures |r| <= |ps|
  {
    if ps == [] then []
    else Generated(ps[..|ps| - 1]) + (if ps[|ps| - 1].nodeType != SkipNodeType then [ps[|ps| - 1].generated] else [])
  }

  /** The methods a manager gathers from the procedures: those of
      non-FUNCTIONs that are not blank, in order. */
  function Gathered(ps: seq<Procedure>): (r: seq<string>)
    ensures |r| <= |ps|
  {
    if ps == [] then []
    else Gathered(ps[..|ps| - 1])
         + (if ps[|ps| - 1].nodeType != SkipNodeType && Keeps(ps[|ps| - 1].generated) then [ps[|ps| - 1].generated] else [])
  }

  lemma {:induction false} JoinSnoc(parts: seq<string>, x: string, sep: string)
    requires parts != []
    ensures Join(parts + [x], sep) == Join(parts, sep) + sep + x
    decreases |parts|
  {
    if |parts| == 1 {
      assert parts + [x] == [parts[0], x];
      assert [parts[0], x][1..] == [x];
    } else {
      assert (parts + [x])[1..] == parts[1..] + [x];
      JoinSnoc(parts[1..], x, sep);
    }
  }

  /** Folding from nothing gives the generated methods joined by blank
      lines, behind one leading blank line when there is any. */
  lemma {:induction false} GenerateAllJoin(ps: seq<Procedure>)
    ensures Generated(ps) == [] ==> GenerateAll([], ps) == []
    ensures Generated(ps) != [] ==> GenerateAll([], ps) == MethodSeparator + Join(Generated(ps), MethodSeparator)
  {
    if ps != [] {
      var init := ps[..|ps| - 1];
      var p := ps[|ps| - 1];
      GenerateAllJoin(init);
      if p.nodeType != SkipNodeType {
        if Generated(init) == [] {
          assert Generated(ps) == [p.generated];
        } else {
          JoinSnoc(Generated(init), p.generated, MethodSeparator);
        }
      } else {
        assert Generated(ps) == Generated(init) + [] == Generated(init);
        assert GenerateAll([], ps) == GenerateAll([], init);
      }
    }
  }

  /** Leading line breaks do not survive `strip()`. */
  lemma {:induction false} StripSeparator(s: string)
    ensures Strip(MethodSeparator + s) == Strip(s)
  {
    var t := MethodSeparator + s;
    assert t[1..][1..] == s;
    assert StripLeft(t) == StripLeft(t[1..]) == StripLeft(s);
  }

  /** When no generated method is blank, the gathered methods are the
      generated ones. */
  lemma {:induction false} GatheredGenerated(ps: seq<Procedure>)
    requires forall i :: 0 <= i < |ps| && ps[i].nodeType != SkipNodeType ==> Keeps(ps[i].generated)
    ensures Gathered(ps) == Generated(ps)
  {
    if ps != [] {
      GatheredGenerated(ps[..|ps| - 1]);
    }
  }

  /** Both paths write the same controller: folding the methods with
      generate from nothing and filling the skeleton with
      generate_controller_class gives what a manager that gathered the same
      procedures saves, as long as no generated method is blank. */
  lemma {:induction false} PathsAgree(skeleton: string, className: string, ps: seq<Procedure>)
    requires forall i :: 0 <= i < |ps| && ps[i].nodeType != SkipNodeType ==> Keeps(ps[i].generated)
    ensures ControllerFile(className, skeleton, GenerateAll([], ps))
            == ControllerFile(className, skeleton, Join(Gathered(ps), MethodSeparator))
  {
    GenerateAllJoin(ps);
    GatheredGenerated(ps);
    if Generated(ps) != [] {
      StripSeparator(Join(Generated(ps), MethodSeparator));
    }
  }
}
